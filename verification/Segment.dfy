/** One segment of the file log: a run of batches in a .log file and a sparse index over it. */
module Segments {
  import opened Bytes
  import opened Seqs
  import opened Record
  import opened Chunks

  datatype IndexEntry = IndexEntry(relOffset: int, position: int)

  // ---------------------------------------------------------------- the sparse index

  /** The index that appending batches one by one produces, and the bytes since its last
      entry: the first batch gets an entry, then every batch that starts at least interval
      bytes after the previous entry. */
  datatype IndexState = IndexState(entries: seq<IndexEntry>, since: int)

  function Indexed(bs: seq<Batch>, base: int, interval: int): (ix: IndexState)
  {
    if bs == [] then IndexState([], 0)
    else
      var n := |bs| - 1;
      var ix := Indexed(bs[..n], base, interval);
      var size := |bs[n].bytes|;
      if ix.entries == [] || ix.since >= interval then
        IndexState(ix.entries + [IndexEntry(bs[n].base - base, PosOf(bs, n))], size)
      else
        IndexState(ix.entries, ix.since + size)
  }

  /** Every entry points at the start of a batch. */
  lemma {:induction false} EntryPointsAtBatch(bs: seq<Batch>, base: int, interval: int, j: nat) returns (i: nat)
    requires j < |Indexed(bs, base, interval).entries|
    ensures i < |bs| && Indexed(bs, base, interval).entries[j] == IndexEntry(bs[i].base - base, PosOf(bs, i))
  {
    var n := |bs| - 1;
    if j < |Indexed(bs[..n], base, interval).entries| {
      i := EntryPointsAtBatch(bs[..n], base, interval, j);
      assert bs[..n][..i] == bs[..i];
    } else {
      i := n;
    }
  }

  predicate Ascending(es: seq<IndexEntry>)
  {
    forall i, j | 0 <= i < j < |es| :: es[i].relOffset < es[j].relOffset
  }

  lemma {:induction false} IndexAscends(bs: seq<Batch>, base: int, interval: int, from: int, to: int)
    requires Chain(bs, from, to)
    ensures Ascending(Indexed(bs, base, interval).entries)
  {
    if bs != [] {
      var n := |bs| - 1;
      ChainSplit(bs, n, from, to);
      IndexAscends(bs[..n], base, interval, from, StartOf(bs, n, to));
      var es := Indexed(bs[..n], base, interval).entries;
      ChainBounds(bs, from, to);
      forall j | 0 <= j < |es| ensures es[j].relOffset < bs[n].base - base {
        var i := EntryPointsAtBatch(bs[..n], base, interval, j);
        ChainOrdered(bs, from, to, i, n);
      }
    }
  }

  /** The counter is the bytes written since the last entry's batch began. */
  lemma {:induction false} SinceIs(bs: seq<Batch>, base: int, interval: int)
    ensures var ix := Indexed(bs, base, interval);
            && (ix.entries == [] <==> bs == []) && ix.since >= 0
            && (bs != [] ==> ix.since == |Concat(bs)| - ix.entries[|ix.entries| - 1].position)
  {
    if bs != [] {
      var n := |bs| - 1;
      SinceIs(bs[..n], base, interval);
      assert bs == bs[..n] + [bs[n]];
      ConcatJoin(bs[..n], [bs[n]]);
      ConcatOne(bs[n]);
    }
  }

  /** How sparse the index is: the first batch has an entry, and entries are at least interval
      bytes apart. */
  lemma {:induction false} IndexSparse(bs: seq<Batch>, base: int, interval: int)
    ensures var es := Indexed(bs, base, interval).entries;
            && (bs != [] ==> es != [] && es[0].position == 0)
            && forall j | 0 < j < |es| :: es[j].position - es[j - 1].position >= interval
  {
    if bs != [] {
      var n := |bs| - 1;
      IndexSparse(bs[..n], base, interval);
      SinceIs(bs[..n], base, interval);
      assert n == 0 ==> bs[..0] == [];
    }
  }

  /** How dense it is: every batch has an entry of its own, or one less than interval bytes before
      it. */
  lemma {:induction false} IndexDense(bs: seq<Batch>, base: int, interval: int, i: nat) returns (j: nat)
    requires i < |bs|
    ensures var es := Indexed(bs, base, interval).entries;
            && j < |es| && es[j].position <= PosOf(bs, i)
            && (es[j].position == PosOf(bs, i) || PosOf(bs, i) - es[j].position < interval)
  {
    var n := |bs| - 1;
    if i < n {
      assert bs[..n][..i] == bs[..i];
      j := IndexDense(bs[..n], base, interval, i);
    } else {
      SinceIs(bs[..n], base, interval);
      j := |Indexed(bs, base, interval).entries| - 1;
    }
  }

  /** floorPosition: the position of the last entry at or below target, 0 if there is none. */
  method FloorPosition(index: seq<IndexEntry>, target: int) returns (pos: int, ghost at: int)
    requires Ascending(index)
    ensures -1 <= at < |index|
    ensures pos == if at < 0 then 0 else index[at].position
    ensures forall i | 0 <= i < |index| :: index[i].relOffset <= target <==> i <= at
  {
    var lo, hi := 0, |index| - 1;
    pos, at := 0, -1;
    while lo <= hi
      invariant 0 <= lo <= hi + 1 <= |index| && at == lo - 1
      invariant pos == if at < 0 then 0 else index[at].position
      invariant forall i | 0 <= i < lo :: index[i].relOffset <= target
      invariant forall i | hi < i < |index| :: index[i].relOffset > target
    {
      var mid := (lo + hi) / 2;
      if index[mid].relOffset <= target {
        pos, at := index[mid].position, mid;
        lo := mid + 1;
      } else {
        hi := mid - 1;
      }
    }
  }

  // ---------------------------------------------------------------- the index file

  function EncodeEntry(e: IndexEntry): (s: seq<byte>)
    ensures |s| == 8
  {
    PutInt(e.relOffset, 4) + PutInt(e.position, 4)
  }

  function EncodeEntries(es: seq<IndexEntry>): (s: seq<byte>)
    ensures |s| == 8 * |es|
  {
    if es == [] then [] else EncodeEntries(es[..|es| - 1]) + EncodeEntry(es[|es| - 1])
  }

  lemma {:induction false} EncodedAt(es: seq<IndexEntry>, i: nat)
    requires i < |es|
    ensures EncodeEntries(es)[8 * i..8 * i + 8] == EncodeEntry(es[i])
  {
    var n := |es| - 1;
    if i < n {
      EncodedAt(es[..n], i);
      SliceLeft(EncodeEntries(es[..n]), EncodeEntry(es[n]), 8 * i, 8 * i + 8);
    } else {
      SliceRight(EncodeEntries(es[..n]), EncodeEntry(es[n]), 8 * n, 8 * n + 8);
    }
  }

  predicate EntriesFit(es: seq<IndexEntry>)
  {
    forall i | 0 <= i < |es| :: FitsInt(es[i].relOffset, 4) && FitsInt(es[i].position, 4)
  }

  lemma EntryFields(e: IndexEntry, b: seq<byte>, at: nat)
    requires FitsInt(e.relOffset, 4) && FitsInt(e.position, 4)
    requires at + 8 <= |b| && b[at..at + 8] == EncodeEntry(e)
    ensures e == IndexEntry(Int(b[at..at + 4]), Int(b[at + 4..at + 8]))
  {
    TwoFields(PutInt(e.relOffset, 4), PutInt(e.position, 4));
    SliceSlice(b, at, at + 8, 0, 4);
    SliceSlice(b, at, at + 8, 4, 8);
    IntOfPutInt(e.relOffset, 4);
    IntOfPutInt(e.position, 4);
  }

  /** The i-th eight bytes of an index file, as an entry. */
  function EntryAt(b: seq<byte>, i: nat): IndexEntry
    requires 8 * i + 8 <= |b|
  {
    IndexEntry(Int(b[8 * i..8 * i + 4]), Int(b[8 * i + 4..8 * i + 8]))
  }

  /** decodeIndexEntries: takes any file contents, eight bytes at a time, without an incomplete
      last entry; and reads back what was written entry for entry. */
  method DecodeIndexEntries(b: seq<byte>, ghost es: seq<IndexEntry>) returns (out: seq<IndexEntry>)
    ensures |out| == |b| / 8 && forall i | 0 <= i < |out| :: out[i] == EntryAt(b, i)
    ensures b == EncodeEntries(es) && EntriesFit(es) ==> out == es
  {
    var n := |b| / 8;
    out := [];
    for i := 0 to n
      invariant |out| == i && forall k | 0 <= k < i :: out[k] == EntryAt(b, k)
      invariant b == EncodeEntries(es) && EntriesFit(es) ==> out == es[..i]
    {
      var off := i * 8;
      if b == EncodeEntries(es) && EntriesFit(es) {
        EncodedAt(es, i);
        EntryFields(es[i], b, off);
      }
      out := out + [IndexEntry(Int(b[off..off + 4]), Int(b[off + 4..off + 8]))];
    }
  }

  // ---------------------------------------------------------------- the segment

  /** A segment seen as a value: its base offset and the batches it holds. */
  datatype SegView = SegView(base: int, batches: seq<Batch>)
  {
    function End(): int { EndOf(batches, base) }
    function Size(): nat { |Concat(batches)| }
    predicate Valid() { Sound(batches) && Chain(batches, base, End()) }
  }

  /** A segment the log has rolled past: its contents never change again. */
  datatype Sealed = Sealed(baseOffset: int, log: seq<byte>, idx: seq<byte>, index: seq<IndexEntry>)
  {
    predicate Shows(v: SegView, interval: int)
    {
      && baseOffset == v.base && log == Concat(v.batches)
      && index == Indexed(v.batches, baseOffset, interval).entries && idx == EncodeEntries(index)
    }

    /** segment.readBatchesFrom: index floor plus forward scan give what a scan of the whole
        segment would. */
    method ReadBatchesFrom(want: int, maxBytes: int, ghost v: SegView, ghost interval: int) returns (out: seq<byte>)
      requires Shows(v, interval) && v.Valid()
      ensures out == Concat(Slice(v.batches, want, maxBytes))
    {
      ghost var bs := v.batches;
      IndexAscends(bs, baseOffset, interval, baseOffset, v.End());
      var pos, at := FloorPosition(index, want - baseOffset);
      ghost var i := 0;
      if at >= 0 {
        i := EntryPointsAtBatch(bs, baseOffset, interval, at);
        forall k | 0 <= k < i ensures bs[k].next <= want {
          ChainOrdered(bs, baseOffset, v.End(), k, i);
        }
      } else {
        PosEnds(bs);
      }
      SkipFrom(bs, i, want);
      out := Gather(log, pos, want, maxBytes, bs, i, baseOffset, v.End());
    }
  }

  class Segment {
    const baseOffset: int
    const indexInterval: int
    var log: seq<byte>       // the .log file
    var idx: seq<byte>       // the .index file
    var logSize: int
    var index: seq<IndexEntry>
    var bytesSinceIdx: int
    ghost var batches: seq<Batch>

    ghost predicate Valid()
      reads this
    {
      && log == Concat(batches) && logSize == |log|
      && index == Indexed(batches, baseOffset, indexInterval).entries
      && idx == EncodeEntries(index)
    }

    /** Ready for append: the byte count since the last index entry is right too. (Only the
        active segment needs it; a reopened older segment starts it at 0.) */
    ghost predicate Appendable()
      reads this
    {
      Valid() && bytesSinceIdx == Indexed(batches, baseOffset, indexInterval).since
    }

    ghost function View(): SegView
      reads this
    {
      SegView(baseOffset, batches)
    }

    /** createSegment */
    constructor Create(base: int, interval: int)
      ensures baseOffset == base && indexInterval == interval
      ensures Appendable() && batches == []
    {
      baseOffset, indexInterval := base, interval;
      log, idx, logSize, index, bytesSinceIdx := [], [], 0, [], 0;
      batches := [];
    }

    /** openSegment: takes the files as they are; the index comes from its file. */
    constructor Open(base: int, interval: int, logFile: seq<byte>, idxFile: seq<byte>, ghost es: seq<IndexEntry>)
      ensures baseOffset == base && indexInterval == interval
      ensures log == logFile && logSize == |log| && idx == idxFile
      ensures idxFile == EncodeEntries(es) && EntriesFit(es) ==> index == es
    {
      var entries := DecodeIndexEntries(idxFile, es);
      baseOffset, indexInterval := base, interval;
      log, idx, logSize, index, bytesSinceIdx := logFile, idxFile, |logFile|, entries, 0;
    }

    /** The end of recovery: cuts the log file at pos and installs the rebuilt index. */
    method Truncate(pos: nat, entries: seq<IndexEntry>, since: int, ghost bs: seq<Batch>)
      requires pos <= |log| == logSize && log[..pos] == Concat(bs)
      requires IndexState(entries, since) == Indexed(bs, baseOffset, indexInterval)
      modifies this
      ensures Appendable() && batches == bs
    {
      if pos != logSize {
        log := log[..pos];
        logSize := pos;
      } else {
        assert log[..pos] == log;
      }
      index, bytesSinceIdx, idx := entries, since, EncodeEntries(entries);
      batches := bs;
    }

    /** segment.append */
    method Append(b: Batch)
      requires Appendable()
      modifies this
      ensures Appendable() && batches == old(batches) + [b]
    {
      AppendIndexed(batches, b, baseOffset, indexInterval);
      ConcatJoin(batches, [b]);
      ConcatOne(b);
      var pos := logSize;
      if |index| == 0 || bytesSinceIdx >= indexInterval {
        var e := IndexEntry(b.base - baseOffset, pos);
        assert (index + [e])[..|index|] == index;
        idx := idx + EncodeEntry(e);
        index := index + [e];
        bytesSinceIdx := 0;
      }
      log := log + b.bytes;
      logSize := logSize + |b.bytes|;
      bytesSinceIdx := bytesSinceIdx + |b.bytes|;
      batches := batches + [b];
    }

    /** segment.readBatchesFrom */
    method ReadBatchesFrom(want: int, maxBytes: int) returns (out: seq<byte>)
      requires Valid() && View().Valid()
      ensures out == Concat(Slice(batches, want, maxBytes))
    {
      out := Freeze().ReadBatchesFrom(want, maxBytes, View(), indexInterval);
    }

    /** The segment as it stays once the log has rolled past it. */
    function Freeze(): (f: Sealed)
      reads this
    {
      Sealed(baseOffset, log, idx, index)
    }
  }

  /** What one more append does to the index. */
  lemma AppendIndexed(bs: seq<Batch>, b: Batch, base: int, interval: int)
    ensures var ix := Indexed(bs, base, interval);
            Indexed(bs + [b], base, interval)
            == if ix.entries == [] || ix.since >= interval
               then IndexState(ix.entries + [IndexEntry(b.base - base, |Concat(bs)|)], |b.bytes|)
               else IndexState(ix.entries, ix.since + |b.bytes|)
  {
    var cs := bs + [b];
    assert cs[..|cs| - 1] == bs;
  }

  lemma AppendChain(bs: seq<Batch>, b: Batch, from: int)
    requires Sound(bs) && Chain(bs, from, EndOf(bs, from)) && WellFormed(b) && b.base == EndOf(bs, from)
    ensures Sound(bs + [b]) && Chain(bs + [b], from, b.next)
    ensures Concat(bs + [b]) == Concat(bs) + b.bytes
  {
    assert [b][1..] == [];
    ChainJoin(bs, [b], from, b.base, b.next);
    ConcatJoin(bs, [b]);
    ConcatOne(b);
    forall i | 0 <= i < |bs + [b]| ensures WellFormed((bs + [b])[i]) {
      assert i < |bs| ==> WellFormed(bs[i]);
    }
  }

  // ---------------------------------------------------------------- crash recovery

  /** What recoverActive learns at a byte position: nothing complete is there, or batch n. */
  method HeaderOrEnd(log: seq<byte>, pos: nat, ghost bs: seq<Batch>, ghost tail: seq<byte>, ghost n: nat)
      returns (whole: bool, total: nat, base: int, last: int)
    requires Sound(bs) && Unreadable(tail) && log == Concat(bs) + tail
    requires n <= |bs| && pos == PosOf(bs, n) < |log|
    ensures whole <==> n < |bs|
    ensures whole ==> total == |bs[n].bytes| > 0 && base == bs[n].base && last == bs[n].next - 1
    ensures whole ==> pos + total == PosOf(bs, n + 1) <= |log|
  {
    whole, total, base, last := false, 0, 0, 0;
    ScanStep(log, bs, tail, n, pos);
    if |log| - pos < HEADER_SIZE {
      return;
    }
    var hdr := log[pos..pos + HEADER_SIZE];
    ParsePrefix(hdr, log[pos..]);
    var p := ParseHeader(hdr);
    if !p.Ok? || pos + p.header.TotalSize() > |log| {
      return;
    }
    whole, total := true, p.header.TotalSize();
    base, last := p.header.baseOffset, p.header.LastOffset();
  }

  /** The recovery scan: stops behind the last whole batch, with the index that appending the
      batches had produced. */
  method ScanBatches(log: seq<byte>, base: int, interval: int, ghost bs: seq<Batch>, ghost tail: seq<byte>)
      returns (pos: nat, index: seq<IndexEntry>, since: int, next: int)
    requires Sound(bs) && Unreadable(tail) && log == Concat(bs) + tail
    ensures pos <= |log| && log[..pos] == Concat(bs)
    ensures IndexState(index, since) == Indexed(bs, base, interval)
    ensures next == if bs == [] then 0 else bs[|bs| - 1].next
  {
    pos, index, since, next := 0, [], 0, 0;
    ghost var n: nat := 0;
    PosEnds(bs);
    assert bs[..0] == [] && bs[..|bs|] == bs;
    assert log[..|Concat(bs)|] == Concat(bs);
    while pos < |log|
      invariant n <= |bs| && pos == PosOf(bs, n) <= |log|
      invariant IndexState(index, since) == Indexed(bs[..n], base, interval)
      invariant next == if n == 0 then 0 else bs[n - 1].next
      decreases |log| - pos
    {
      var whole, total, b, last := HeaderOrEnd(log, pos, bs, tail, n);
      if !whole {
        return;
      }
      AppendIndexed(bs[..n], bs[n], base, interval);
      assert bs[..n] + [bs[n]] == bs[..n + 1];
      if |index| == 0 || since >= interval {
        index, since := index + [IndexEntry(b - base, pos)], 0;
      }
      next := last + 1;
      pos := pos + total;
      since := since + total;
      n := n + 1;
    }
    if n < |bs| {
      PosMonotone(bs, n, |bs|);
      assert false;
    }
  }

  /** recoverActive: over any run of batches and whatever unreadable bytes a crash left behind
      it, keeps exactly the whole batches, and rebuilds the size, the index (in memory
      and on disk), the byte count and the next offset that appending them had produced. */
  method RecoverActive(s: Segment, ghost bs: seq<Batch>, ghost tail: seq<byte>) returns (next: int)
    requires Sound(bs) && Chain(bs, s.baseOffset, EndOf(bs, s.baseOffset)) && Unreadable(tail)
    requires s.log == Concat(bs) + tail && s.logSize == |s.log| && s.baseOffset >= 0
    modifies s
    ensures s.Appendable() && s.batches == bs && next == s.View().End()
  {
    assert bs != [] ==> bs[|bs| - 1].next > 0 by {
      ChainBounds(bs, s.baseOffset, EndOf(bs, s.baseOffset));
    }
    var pos, index, since;
    pos, index, since, next := ScanBatches(s.log, s.baseOffset, s.indexInterval, bs, tail);
    s.Truncate(pos, index, since, bs);
    if next == 0 {
      next := s.baseOffset;
    }
  }
}
