/** Reading a partition whose batches are held in several chunks: segment files for the file
    log, uploaded object slices and the pending buffer for the object log. A read serves one
    chunk; draining reads again and again. What a consumer sees does not depend on where the
    chunk boundaries fell. */
module Chunks {
  import opened Bytes
  import opened Seqs
  import opened Record

  /** Drops the batches that lie entirely before offset want. */
  function Skip(bs: seq<Batch>, want: int): seq<Batch>
  {
    if bs == [] || bs[0].next > want then bs else Skip(bs[1..], want)
  }

  /** Takes whole batches while they fit in maxBytes, have bytes being taken already; the
      first one is taken whatever its size. */
  function Fill(bs: seq<Batch>, maxBytes: int, have: nat): seq<Batch>
  {
    if bs == [] then []
    else
      var total := have + |bs[0].bytes|;
      if have > 0 && total > maxBytes then []
      else if total >= maxBytes then [bs[0]]
      else [bs[0]] + Fill(bs[1..], maxBytes, total)
  }

  /** One read from one chunk. */
  function Slice(bs: seq<Batch>, want: int, maxBytes: int): seq<Batch>
  {
    Fill(Skip(bs, want), maxBytes, 0)
  }

  function EndOf(bs: seq<Batch>, from: int): int
  {
    if bs == [] then from else bs[|bs| - 1].next
  }

  function Flat(cs: seq<seq<Batch>>): seq<Batch>
  {
    if cs == [] then [] else cs[0] + Flat(cs[1..])
  }

  lemma {:induction false} FlatJoin(cs: seq<seq<Batch>>, ds: seq<seq<Batch>>)
    ensures Flat(cs + ds) == Flat(cs) + Flat(ds)
  {
    if cs == [] {
      assert cs + ds == ds;
    } else {
      FlatJoin(cs[1..], ds);
      assert (cs + ds)[1..] == cs[1..] + ds;
      Associative(cs[0], Flat(cs[1..]), Flat(ds));
    }
  }

  lemma FlatOne(c: seq<Batch>)
    ensures Flat([c]) == c
  {
    assert [c][1..] == [] && c + [] == c;
  }

  /** The chunks cover the offsets [from, to) in order. */
  predicate Tiled(cs: seq<seq<Batch>>, from: int, to: int)
  {
    if cs == [] then from == to
    else Chain(cs[0], from, EndOf(cs[0], from)) && Tiled(cs[1..], EndOf(cs[0], from), to)
  }

  predicate AllSound(cs: seq<seq<Batch>>)
  {
    forall i {:trigger Sound(cs[i])} | 0 <= i < |cs| :: Sound(cs[i])
  }

  /** The reference read: walk the chunks to the one that holds offset off, read from it. */
  function ReadAt(cs: seq<seq<Batch>>, from: int, off: int, maxBytes: int): seq<Batch>
  {
    if cs == [] then []
    else if off < EndOf(cs[0], from) then Slice(cs[0], off, maxBytes)
    else ReadAt(cs[1..], EndOf(cs[0], from), off, maxBytes)
  }

  // ---------------------------------------------------------------- one read

  lemma {:induction false} SkipIsSuffix(bs: seq<Batch>, from: int, to: int, want: int) returns (i: nat)
    requires Chain(bs, from, to) && from <= want < to
    ensures i < |bs| && Skip(bs, want) == bs[i..] && bs[i].base <= want < bs[i].next
  {
    ChainBounds(bs, from, to);
    if bs[0].next > want {
      i := 0;
    } else {
      i := SkipIsSuffix(bs[1..], bs[0].next, to, want);
      i := i + 1;
    }
  }

  lemma {:induction false} FillIsPrefix(bs: seq<Batch>, maxBytes: int, have: nat) returns (n: nat)
    requires forall i | 0 <= i < |bs| :: |bs[i].bytes| > 0
    ensures n <= |bs| && Fill(bs, maxBytes, have) == bs[..n]
    ensures have == 0 && bs != [] ==> n > 0
    ensures n > 0 && (have > 0 || n > 1) ==> have + |Concat(bs[..n])| <= maxBytes
    ensures n < |bs| ==> have + |Concat(bs[..n])| + |bs[n].bytes| > maxBytes
  {
    if bs == [] {
      n := 0;
    } else {
      var total := have + |bs[0].bytes|;
      if have > 0 && total > maxBytes {
        n := 0;
      } else if total >= maxBytes {
        n := 1;
        assert bs[..1] == [bs[0]];
        ConcatOne(bs[0]);
      } else {
        n := FillIsPrefix(bs[1..], maxBytes, total);
        n := n + 1;
        assert bs[..n] == [bs[0]] + bs[1..][..n - 1];
        assert bs[..n][1..] == bs[1..][..n - 1];
      }
    }
  }

  /** A read from one chunk is a run of whole batches from the one that holds the offset; above
      maxBytes only as a single batch, and as long as maxBytes and the chunk allow. */
  lemma SliceIsRun(bs: seq<Batch>, from: int, to: int, want: int, maxBytes: int) returns (i: nat, j: nat)
    requires Chain(bs, from, to) && Sound(bs) && from <= want < to
    ensures i < j <= |bs| && Slice(bs, want, maxBytes) == bs[i..j]
    ensures bs[i].base <= want < bs[i].next
    ensures |Concat(bs[i..j])| > maxBytes ==> j == i + 1
    ensures j < |bs| ==> |Concat(bs[i..j])| + |bs[j].bytes| > maxBytes
  {
    i := SkipIsSuffix(bs, from, to, want);
    NonEmptyBytes(bs);
    var n := FillIsPrefix(bs[i..], maxBytes, 0);
    j := i + n;
    assert bs[i..][..n] == bs[i..j];
  }

  /** Skipping from a batch that starts at or before want skips the same batches. */
  lemma {:induction false} SkipFrom(bs: seq<Batch>, i: nat, want: int)
    requires i <= |bs| && forall k | 0 <= k < i :: bs[k].next <= want
    ensures Skip(bs, want) == Skip(bs[i..], want)
  {
    if i == 0 {
      assert bs[0..] == bs;
    } else {
      SkipFrom(bs[1..], i - 1, want);
      assert bs[1..][i - 1..] == bs[i..];
    }
  }

  lemma NonEmptyBytes(bs: seq<Batch>)
    requires Sound(bs)
    ensures forall i | 0 <= i < |bs| :: |bs[i].bytes| > 0
  {
    forall i | 0 <= i < |bs| ensures |bs[i].bytes| > 0 {
      assert WellFormed(bs[i]);
    }
  }

  /** A read at any retained offset returns a non-empty run of whole consecutive batches that
      starts with the batch holding the offset, and exceeds maxBytes only as a single batch. */
  lemma {:induction false} ReadIsRun(cs: seq<seq<Batch>>, from: int, to: int, off: int, maxBytes: int)
      returns (i: nat, j: nat)
    requires Tiled(cs, from, to) && AllSound(cs) && from <= off < to
    ensures var bs := Flat(cs);
            && i < j <= |bs| && ReadAt(cs, from, off, maxBytes) == bs[i..j]
            && bs[i].base <= off < bs[i].next
            && (|Concat(bs[i..j])| > maxBytes ==> j == i + 1)
  {
    var bs, mid, rest := Flat(cs), EndOf(cs[0], from), Flat(cs[1..]);
    assert Sound(cs[0]);
    if off < mid {
      i, j := SliceIsRun(cs[0], from, mid, off, maxBytes);
      SliceLeft(cs[0], rest, i, j);
    } else {
      assert AllSound(cs[1..]) by {
        forall k | 0 <= k < |cs[1..]| ensures Sound(cs[1..][k]) {
          assert Sound(cs[k + 1]);
        }
      }
      i, j := ReadIsRun(cs[1..], mid, to, off, maxBytes);
      SliceRight(cs[0], rest, |cs[0]| + i, |cs[0]| + j);
      i, j := |cs[0]| + i, |cs[0]| + j;
    }
  }

  lemma {:induction false} FlatChain(cs: seq<seq<Batch>>, from: int, to: int)
    requires Tiled(cs, from, to)
    ensures Chain(Flat(cs), from, to)
  {
    if cs != [] {
      FlatChain(cs[1..], EndOf(cs[0], from), to);
      ChainJoin(cs[0], Flat(cs[1..]), from, EndOf(cs[0], from), to);
    }
  }

  datatype ReadResult = Data(bytes: seq<byte>) | OutOfRange

  /** The Read contract of every storage backend over offsets [from, to): nothing (and no
      error) at the log end, an error outside the range, otherwise one read. */
  function BackendRead(cs: seq<seq<Batch>>, from: int, to: int, off: int, maxBytes: int): ReadResult
  {
    if off == to then Data([])
    else if off > to || off < from then OutOfRange
    else Data(Concat(ReadAt(cs, from, off, maxBytes)))
  }

  /** A high watermark after being offered the value hwm by a log ending at next. */
  function Raised(old_: int, hwm: int, next: int): (r: int)
    ensures r >= old_ && (old_ <= next ==> r <= next)
  {
    var h := if hwm > next then next else hwm;
    if h > old_ then h else old_
  }

  /** It never falls, reaches the value offered as far as the log reaches, and goes no further. */
  lemma RaisedIs(old_: int, hwm: int, next: int)
    ensures var r := Raised(old_, hwm, next);
            && r >= old_ && (hwm <= next ==> r >= hwm) && (next <= hwm ==> r >= next)
            && (r == old_ || (r <= hwm && r <= next))
  {
  }

  // ---------------------------------------------------------------- draining

  /** What a consumer collects: read at off, advance past the last offset returned, repeat
      until the log end or until a read brings nothing new. */
  function Drain(cs: seq<seq<Batch>>, from: int, to: int, off: int, maxBytes: int): seq<Batch>
    decreases to - off
  {
    var r := ReadAt(cs, from, off, maxBytes);
    if off >= to || r == [] || r[|r| - 1].next <= off then []
    else r + Drain(cs, from, to, r[|r| - 1].next, maxBytes)
  }

  /** A read at the start of batch k returns batches k up to some j, and its last offset leads
      to the start of batch j. */
  lemma ReadAtBoundary(cs: seq<seq<Batch>>, from: int, to: int, k: nat, maxBytes: int) returns (j: nat)
    requires Tiled(cs, from, to) && AllSound(cs) && k < |Flat(cs)|
    ensures var bs := Flat(cs);
            var off := StartOf(bs, k, to);
            && k < j <= |bs| && ReadAt(cs, from, off, maxBytes) == bs[k..j]
            && from <= off < bs[j - 1].next == StartOf(bs, j, to) <= to
  {
    var bs := Flat(cs);
    FlatChain(cs, from, to);
    ChainBounds(bs, from, to);
    var i;
    i, j := ReadIsRun(cs, from, to, bs[k].base, maxBytes);
    if i < k {
      ChainOrdered(bs, from, to, i, k);
    } else if k < i {
      ChainOrdered(bs, from, to, k, i);
    }
    ChainOrdered(bs, from, to, j - 1, j);
    ChainOrdered(bs, from, to, k, j);
  }

  lemma {:induction false} DrainFromBoundary(cs: seq<seq<Batch>>, from: int, to: int, k: nat, maxBytes: int)
    requires Tiled(cs, from, to) && AllSound(cs) && k <= |Flat(cs)|
    ensures Drain(cs, from, to, StartOf(Flat(cs), k, to), maxBytes) == Flat(cs)[k..]
    decreases |Flat(cs)| - k
  {
    var bs := Flat(cs);
    if k < |bs| {
      var j := ReadAtBoundary(cs, from, to, k, maxBytes);
      DrainFromBoundary(cs, from, to, j, maxBytes);
      assert bs[k..j][|bs[k..j]| - 1] == bs[j - 1];
      assert bs[k..j] + bs[j..] == bs[k..];
    }
  }

  /** Draining from the earliest offset returns exactly the stored batches, once each and in
      order, whatever the read size. */
  lemma DrainReturnsAll(cs: seq<seq<Batch>>, from: int, to: int, maxBytes: int)
    requires Tiled(cs, from, to) && AllSound(cs)
    ensures Drain(cs, from, to, from, maxBytes) == Flat(cs)
  {
    FlatChain(cs, from, to);
    ChainBounds(Flat(cs), from, to);
    DrainFromBoundary(cs, from, to, 0, maxBytes);
    assert Flat(cs)[0..] == Flat(cs);
  }

  /** So two logs holding the same batches are indistinguishable to a consumer, however their
      chunks were cut and whatever read sizes it uses. */
  lemma ChunkingInvisible(cs: seq<seq<Batch>>, ds: seq<seq<Batch>>, from: int, to: int, max1: int, max2: int)
    requires Tiled(cs, from, to) && AllSound(cs) && Tiled(ds, from, to) && AllSound(ds)
    requires Flat(cs) == Flat(ds)
    ensures Drain(cs, from, to, from, max1) == Drain(ds, from, to, from, max2)
  {
    DrainReturnsAll(cs, from, to, max1);
    DrainReturnsAll(ds, from, to, max2);
  }

  // ---------------------------------------------------------------- the scan loop

  /** What is still to be taken when the scan stands before batch n. */
  function Remaining(bs: seq<Batch>, n: nat, want: int, maxBytes: int, have: nat): seq<Batch>
    requires n <= |bs|
  {
    if have == 0 then Slice(bs[n..], want, maxBytes) else Fill(bs[n..], maxBytes, have)
  }

  /** Reads the header at the byte position of batch n. */
  method HeaderOfBatch(data: seq<byte>, pos: nat, ghost bs: seq<Batch>, ghost n: nat)
      returns (total: nat, last: int)
    requires Sound(bs) && n < |bs| && data == Concat(bs) && pos == PosOf(bs, n)
    ensures total == |bs[n].bytes| > 0 && last == bs[n].next - 1
    ensures pos + total == PosOf(bs, n + 1) <= |data| && data[pos..pos + total] == bs[n].bytes
  {
    assert data + [] == data;
    BatchAt(bs, n, []);
    HeaderAt(bs, n, []);
    var h := ParseHeader(data[pos..]).header;
    total, last := h.TotalSize(), h.LastOffset();
  }

  /** The scan stands before batch n with out gathered so far, and will end with goal. */
  ghost predicate Scanning(bs: seq<Batch>, n: nat, want: int, maxBytes: int, out: seq<byte>, goal: seq<byte>)
  {
    && n <= |bs| && (out != [] ==> 0 < n && want < bs[n - 1].next)
    && goal == out + Concat(Remaining(bs, n, want, maxBytes, |out|))
  }

  /** One turn of the scan loop. */
  method GatherOne(data: seq<byte>, pos: nat, want: int, maxBytes: int, got: seq<byte>,
                   ghost bs: seq<Batch>, ghost n: nat, ghost from: int, ghost to: int, ghost goal: seq<byte>)
      returns (stop: bool, out: seq<byte>, pos': nat)
    requires Sound(bs) && Chain(bs, from, to) && data == Concat(bs)
    requires Scanning(bs, n, want, maxBytes, got, goal) && n < |bs| && pos == PosOf(bs, n)
    ensures pos < pos' == PosOf(bs, n + 1) <= |data|
    ensures if stop then out == goal else Scanning(bs, n + 1, want, maxBytes, out, goal)
  {
    var total, last := HeaderOfBatch(data, pos, bs, n);
    stop, out, pos' := false, got, pos + total;
    if last < want {
      if got != [] {
        NextGrows(bs, from, to, n);
        assert false;
      }
      SkipStep(bs, n, want, maxBytes);
    } else if |got| > 0 && |got| + total > maxBytes {
      StopStep(bs, n, want, maxBytes, |got|);
      stop := true;
    } else {
      GatherStep(bs, n, want, maxBytes, got);
      out := got + data[pos..pos + total];
      stop := |out| >= maxBytes;
    }
  }

  /** The scan loop shared by segment.readBatchesFrom and sliceBatches: from the byte position
      of batch first, skip the batches before want and gather whole ones up to maxBytes. */
  method Gather(data: seq<byte>, start: nat, want: int, maxBytes: int,
                ghost bs: seq<Batch>, ghost first: nat, ghost from: int, ghost to: int)
      returns (out: seq<byte>)
    requires Sound(bs) && Chain(bs, from, to) && data == Concat(bs)
    requires first <= |bs| && start == PosOf(bs, first)
    ensures out == Concat(Slice(bs[first..], want, maxBytes))
  {
    out := [];
    var pos := start;
    ghost var n: nat := first;
    ghost var goal := Concat(Slice(bs[first..], want, maxBytes));
    PosEnds(bs);
    PosMonotone(bs, first, |bs|);
    ScanStarts(bs, first, want, maxBytes);
    while pos < |data|
      invariant n <= |bs| && pos == PosOf(bs, n) <= |data| && Scanning(bs, n, want, maxBytes, out, goal)
      decreases |data| - pos
    {
      var stop;
      stop, out, pos := GatherOne(data, pos, want, maxBytes, out, bs, n, from, to, goal);
      n := n + 1;
      if stop {
        return;
      }
    }
    LastPos(bs, n);
    ScanEnds(bs, want, maxBytes, out, goal);
  }

  lemma StopStep(bs: seq<Batch>, n: nat, want: int, maxBytes: int, have: nat)
    requires n < |bs| && have > 0 && have + |bs[n].bytes| > maxBytes
    ensures Remaining(bs, n, want, maxBytes, have) == []
  {
  }

  lemma ScanStarts(bs: seq<Batch>, first: nat, want: int, maxBytes: int)
    requires first <= |bs|
    ensures Scanning(bs, first, want, maxBytes, [], Concat(Slice(bs[first..], want, maxBytes)))
  {
  }

  lemma ScanEnds(bs: seq<Batch>, want: int, maxBytes: int, out: seq<byte>, goal: seq<byte>)
    requires Scanning(bs, |bs|, want, maxBytes, out, goal)
    ensures out == goal
  {
    assert bs[|bs|..] == [] && out + [] == out;
  }

  lemma LastPos(bs: seq<Batch>, n: nat)
    requires Sound(bs) && n <= |bs| && PosOf(bs, n) == |Concat(bs)|
    ensures n == |bs|
  {
    PosEnds(bs);
    if n < |bs| {
      PosMonotone(bs, n, |bs|);
    }
  }

  lemma NextGrows(bs: seq<Batch>, from: int, to: int, n: nat)
    requires Chain(bs, from, to) && 0 < n < |bs|
    ensures bs[n - 1].next < bs[n].next
  {
    ChainOrdered(bs, from, to, n - 1, n);
    ChainBounds(bs, from, to);
  }

  lemma SkipStep(bs: seq<Batch>, n: nat, want: int, maxBytes: int)
    requires n < |bs| && bs[n].next <= want
    ensures Remaining(bs, n, want, maxBytes, 0) == Remaining(bs, n + 1, want, maxBytes, 0)
  {
    assert bs[n..][1..] == bs[n + 1..];
  }

  /** Taking batch n moves its bytes from what remains to what is gathered. */
  lemma GatherStep(bs: seq<Batch>, n: nat, want: int, maxBytes: int, out: seq<byte>)
    requires n < |bs| && bs[n].next > want && |bs[n].bytes| > 0
    requires |out| == 0 || |out| + |bs[n].bytes| <= maxBytes
    ensures var out' := out + bs[n].bytes;
            (out + Concat(Remaining(bs, n, want, maxBytes, |out|))
             == if |out'| >= maxBytes then out'
                else out' + Concat(Remaining(bs, n + 1, want, maxBytes, |out'|)))
  {
    var rest := Remaining(bs, n, want, maxBytes, |out|);
    assert bs[n..][1..] == bs[n + 1..];
    ConcatOne(bs[n]);
    if |out| + |bs[n].bytes| < maxBytes {
      var more := Fill(bs[n + 1..], maxBytes, |out| + |bs[n].bytes|);
      assert rest == [bs[n]] + more;
      ConcatJoin([bs[n]], more);
      Associative(out, bs[n].bytes, Concat(more));
    }
  }
}
