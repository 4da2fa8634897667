/** Reading the object-backed log, and why it looks to a consumer like the file log. */
module ObjectReads {
  import opened Bytes
  import opened Record
  import opened Chunks
  import opened Segments
  import opened FileLog
  import opened Wal
  import opened ObjectStorage
  import opened ObjectRuns
  import opened ObjectTheorems

  /** refFor by a linear walk: the entry whose range holds the offset, -1 if none does. */
  function RefIndex(rs: seq<Ref>, off: int): (i: int)
    ensures -1 <= i < |rs|
    ensures i >= 0 ==> rs[i].base <= off < rs[i].next
  {
    if rs == [] then -1
    else if rs[0].base <= off < rs[0].next then 0
    else
      var i := RefIndex(rs[1..], off);
      if i < 0 then -1 else i + 1
  }

  /** ObjectLog.Read and Storage.read: the pending buffer if the offset is in it, otherwise the
      uploaded slice that holds it, otherwise nothing. */
  function ObjectRead(s: Node, k: PartKey, off: int, maxBytes: int): ReadResult
    requires k in s.logs && k in s.refs && k in s.uploaded && |s.uploaded[k]| == |s.refs[k]|
  {
    var l := s.logs[k];
    if off == l.next then Data([])
    else if off > l.next || off < l.earliest then OutOfRange
    else if k in s.pending && s.pending[k].batches != [] && off >= s.pending[k].base then
      Data(Concat(Slice(s.pending[k].batches, off, maxBytes)))
    else
      var i := RefIndex(s.refs[k], off);
      if i < 0 then Data([]) else Data(Concat(Slice(s.uploaded[k][i], off, maxBytes)))
  }

  function ChunkOf(m: Buffer, k: PartKey): seq<seq<Batch>>
  {
    if k in m then [m[k].batches] else []
  }

  /** A partition as chunks: its uploaded slices, the snapshot in flight, the pending buffer. */
  function PartChunks(s: Node, k: PartKey): seq<seq<Batch>>
    requires k in s.uploaded
  {
    s.uploaded[k] + (ChunkOf(Snap(s), k) + ChunkOf(s.pending, k))
  }

  lemma {:induction false} FlatTiles(cs: seq<seq<Batch>>, from: int, to: int)
    requires Chain(Flat(cs), from, to)
    ensures Tiled(cs, from, to)
  {
    if cs != [] {
      var bs, c := Flat(cs), cs[0];
      ChainSplit(bs, |c|, from, to);
      assert bs[..|c|] == c && bs[|c|..] == Flat(cs[1..]);
      ChainBounds(c, from, StartOf(bs, |c|, to));
      FlatTiles(cs[1..], EndOf(c, from), to);
    }
  }

  lemma {:induction false} FlatSound(cs: seq<seq<Batch>>)
    requires Sound(Flat(cs))
    ensures AllSound(cs)
  {
    if cs != [] {
      SoundJoin(cs[0], Flat(cs[1..]));
      FlatSound(cs[1..]);
      forall i | 0 <= i < |cs| ensures Sound(cs[i]) {
        if i > 0 {
          assert Sound(cs[1..][i - 1]);
        }
      }
    }
  }

  lemma FlatChunkOf(m: Buffer, k: PartKey)
    ensures Flat(ChunkOf(m, k)) == Held(m, k)
  {
    if k in m {
      FlatOne(m[k].batches);
    }
  }

  /** The chunks are what the partition retains, in order. */
  lemma ChunksHold(s: Node, k: PartKey)
    requires PartOk(s, k)
    ensures Flat(PartChunks(s, k)) == PartOf(s, k).Retained()
    ensures Tiled(PartChunks(s, k), s.logs[k].earliest, s.logs[k].next) && AllSound(PartChunks(s, k))
  {
    FlatChunkOf(Snap(s), k);
    FlatChunkOf(s.pending, k);
    FlatJoin(ChunkOf(Snap(s), k), ChunkOf(s.pending, k));
    FlatJoin(s.uploaded[k], ChunkOf(Snap(s), k) + ChunkOf(s.pending, k));
    FlatTiles(PartChunks(s, k), s.logs[k].earliest, s.logs[k].next);
    FlatSound(PartChunks(s, k));
  }

  /** The entry refFor picks is the chunk a walk over all chunks would read. */
  lemma {:induction false} PickedRef(objects: map<ObjKey, seq<byte>>, rs: seq<Ref>, cs: seq<seq<Batch>>,
                                     ds: seq<seq<Batch>>, from: int, mid: int, off: int, maxBytes: int)
    requires RefsHold(objects, rs, cs) && Tiles(rs, from, mid) && from <= off
    ensures var i, r := RefIndex(rs, off), ReadAt(cs + ds, from, off, maxBytes);
            if off < mid then 0 <= i < |cs| && r == Slice(cs[i], off, maxBytes)
            else i == -1 && r == ReadAt(ds, mid, off, maxBytes)
  {
    if rs == [] {
      assert cs + ds == ds;
    } else {
      assert RefHolds(objects, rs[0], cs[0]);
      assert (cs + ds)[1..] == cs[1..] + ds;
      TilesBounds(rs[1..], rs[0].next, mid);
      forall i | 0 <= i < |rs[1..]| ensures RefHolds(objects, rs[1..][i], cs[1..][i]) {
        assert RefHolds(objects, rs[i + 1], cs[i + 1]);
      }
      if off >= rs[0].next {
        PickedRef(objects, rs[1..], cs[1..], ds, rs[0].next, mid, off, maxBytes);
      }
    }
  }

  predicate InSnapshot(s: Node, k: PartKey, off: int)
  {
    k in Snap(s) && Snap(s)[k].base <= off < Snap(s)[k].next
  }

  /** The un-uploaded end: a walk reads the snapshot or the pending buffer, by offset. */
  lemma TailRead(snap: Buffer, pending: Buffer, k: PartKey, mid: int, next: int, off: int, maxBytes: int)
    requires (k in snap ==> EntryOk(snap[k])) && (k in pending ==> EntryOk(pending[k]))
    requires Chain(Held(snap, k) + Held(pending, k), mid, next) && mid <= off < next
    ensures var r := ReadAt(ChunkOf(snap, k) + ChunkOf(pending, k), mid, off, maxBytes);
            && (k in pending && off >= pending[k].base ==>
                  r == Slice(pending[k].batches, off, maxBytes) && !(k in snap && off < snap[k].next))
            && (!(k in pending && off >= pending[k].base) ==> k in snap && snap[k].base <= off < snap[k].next)
  {
    var a, c := Held(snap, k), Held(pending, k);
    var bs, cs := a + c, ChunkOf(snap, k) + ChunkOf(pending, k);
    ChainSplit(bs, |a|, mid, next);
    assert bs[..|a|] == a && bs[|a|..] == c;
    var m := StartOf(bs, |a|, next);
    ChainBounds(a, mid, m);
    ChainBounds(c, m, next);
    if k in snap {
      assert cs[1..] == ChunkOf(pending, k);
    } else {
      assert cs == ChunkOf(pending, k);
    }
    if k in pending {
      assert ChunkOf(pending, k)[1..] == [];
    }
  }

  /** What a read returns, exactly: the reference read over everything retained, except that an
      offset inside the snapshot being uploaded reads as "nothing yet". */
  lemma ObjectReadExact(s: Node, k: PartKey, off: int, maxBytes: int)
    requires PartInv(s, k)
    ensures PartOk(s, k)
    ensures ObjectRead(s, k, off, maxBytes)
            == if InSnapshot(s, k, off) then Data([])
               else BackendRead(PartChunks(s, k), s.logs[k].earliest, s.logs[k].next, off, maxBytes)
  {
    assert PartOk(s, k);
    assert k in s.pending ==> EntryOk(s.pending[k]);
    assert k in Snap(s) ==> EntryOk(Snap(s)[k]);
    Conservation(s, k);
    var from, mid, next := s.logs[k].earliest, IndexEnd(s, k), s.logs[k].next;
    var tail := Held(Snap(s), k) + Held(s.pending, k);
    TilesBounds(s.refs[k], from, mid);
    ChainBounds(tail, mid, next);
    SnapRange(s, k);
    if from <= off < next {
      PickedRef(s.objects, s.refs[k], s.uploaded[k], ChunkOf(Snap(s), k) + ChunkOf(s.pending, k), from, mid, off,
                maxBytes);
      if off >= mid {
        TailRead(Snap(s), s.pending, k, mid, next, off, maxBytes);
      }
    }
  }

  lemma SnapRange(s: Node, k: PartKey)
    requires PartInv(s, k)
    ensures k in Snap(s) ==> Snap(s)[k].base == IndexEnd(s, k) && Snap(s)[k].next <= s.logs[k].next
    ensures k in s.pending ==> IndexEnd(s, k) <= s.pending[k].base
  {
    Conservation(s, k);
    var a, c := Held(Snap(s), k), Held(s.pending, k);
    ChainBounds(a + c, IndexEnd(s, k), s.logs[k].next);
    if k in Snap(s) {
      assert EntryOk(Snap(s)[k]);
      assert (a + c)[0] == a[0] && (a + c)[|a| - 1] == a[|a| - 1];
    }
    if k in s.pending {
      assert EntryOk(s.pending[k]);
      assert (a + c)[|a|] == c[0];
    }
  }

  /** An offset the log still holds reads as empty just when it is inside the snapshot being
      uploaded: so exactly a log with no upload in flight can always be drained. */
  lemma EmptyReadIff(s: Node, k: PartKey, off: int, maxBytes: int)
    requires PartInv(s, k) && s.logs[k].earliest <= off < s.logs[k].next
    ensures PartOk(s, k)
    ensures ObjectRead(s, k, off, maxBytes) == Data([]) <==> InSnapshot(s, k, off)
  {
    ObjectReadExact(s, k, off, maxBytes);
    ChunksHold(s, k);
    var i, j := ReadIsRun(PartChunks(s, k), s.logs[k].earliest, s.logs[k].next, off, maxBytes);
    var bs := Flat(PartChunks(s, k));
    assert WellFormed(bs[i]);
    assert bs[i..j][0] == bs[i];
  }

  /** The two backends side by side: a file log and a quiescent object log that hold the same
      batches answer every drain alike, for any read sizes, wherever segments were rolled and
      uploads fell. */
  lemma BackendsIndistinguishable(vs: seq<SegView>, s: Node, k: PartKey, max1: int, max2: int)
    requires PartInv(s, k) && k !in Snap(s)
    requires Layout(vs, s.logs[k].next) && vs[0].base == s.logs[k].earliest
    requires Stored(vs) == Skip(s.history[k], s.logs[k].earliest)
    ensures PartOk(s, k)
    ensures var from, to := s.logs[k].earliest, s.logs[k].next;
            && Drain(ChunksOf(vs), from, to, from, max1) == Drain(PartChunks(s, k), from, to, from, max2)
            && Drain(PartChunks(s, k), from, to, from, max2) == Stored(vs)
            && (forall off, m :: ObjectRead(s, k, off, m) == BackendRead(PartChunks(s, k), from, to, off, m))
  {
    assert PartOk(s, k);
    var p := PartOf(s, k);
    ChunksHold(s, k);
    SuffixIsSkip(p.history, p.Retained(), p.log.earliest, p.log.next);
    LayoutTiled(vs, s.logs[k].next);
    ChunkingInvisible(ChunksOf(vs), PartChunks(s, k), s.logs[k].earliest, s.logs[k].next, max1, max2);
    DrainReturnsAll(PartChunks(s, k), s.logs[k].earliest, s.logs[k].next, max2);
    forall off, m ensures ObjectRead(s, k, off, m)
                          == BackendRead(PartChunks(s, k), s.logs[k].earliest, s.logs[k].next, off, m)
    {
      ObjectReadExact(s, k, off, m);
    }
  }
}
