/** The file log of one partition: segments of batches, appended at the end, read anywhere,
    dropped from the front, and recovered after a crash. */
module FileLog {
  import opened Bytes
  import opened Seqs
  import opened Record
  import opened Chunks
  import opened Segments

  /** Segments follow one another without gap and end at the log end offset. */
  predicate Layout(vs: seq<SegView>, next: int)
  {
    && vs != [] && vs[0].Valid()
    && if |vs| == 1 then vs[0].End() == next
       else vs[1].base == vs[0].End() && Layout(vs[1..], next)
  }

  function ChunksOf(vs: seq<SegView>): seq<seq<Batch>>
  {
    if vs == [] then [] else [vs[0].batches] + ChunksOf(vs[1..])
  }

  function Stored(vs: seq<SegView>): seq<Batch>
  {
    Flat(ChunksOf(vs))
  }

  function SizeOf(vs: seq<SegView>): nat
  {
    if vs == [] then 0 else vs[0].Size() + SizeOf(vs[1..])
  }

  lemma {:induction false} LayoutAt(vs: seq<SegView>, next: int, i: nat)
    requires Layout(vs, next) && i < |vs|
    ensures vs[i].Valid() && vs[0].base <= vs[i].base <= vs[i].End() <= next
    ensures vs[i].End() == if i + 1 < |vs| then vs[i + 1].base else next
  {
    ChainBounds(vs[0].batches, vs[0].base, vs[0].End());
    if i > 0 {
      LayoutAt(vs[1..], next, i - 1);
    } else if |vs| > 1 {
      LayoutAt(vs[1..], next, 0);
    }
  }

  lemma {:induction false} LayoutJoin(vs: seq<SegView>, mid: int, ws: seq<SegView>, next: int)
    requires Layout(vs, mid) && Layout(ws, next) && ws[0].base == mid
    ensures Layout(vs + ws, next)
  {
    assert (vs + ws)[1..] == vs[1..] + ws;
    if |vs| == 1 {
      assert vs[1..] + ws == ws;
    } else {
      LayoutJoin(vs[1..], mid, ws, next);
    }
  }

  lemma {:induction false} LayoutSplit(vs: seq<SegView>, next: int, k: nat)
    requires Layout(vs, next) && 0 < k < |vs|
    ensures Layout(vs[..k], vs[k].base) && Layout(vs[k..], next)
  {
    if k > 1 {
      LayoutSplit(vs[1..], next, k - 1);
      assert vs[..k][1..] == vs[1..][..k - 1];
      assert vs[k..] == vs[1..][k - 1..];
    }
  }

  lemma {:induction false} LayoutTiled(vs: seq<SegView>, next: int)
    requires Layout(vs, next)
    ensures Tiled(ChunksOf(vs), vs[0].base, next) && AllSound(ChunksOf(vs))
  {
    var cs := ChunksOf(vs);
    assert cs[1..] == ChunksOf(vs[1..]);
    if |vs| > 1 {
      LayoutTiled(vs[1..], next);
    }
    forall i | 0 <= i < |cs| ensures Sound(cs[i]) {
      if i > 0 {
        assert cs[i] == cs[1..][i - 1];
      }
    }
  }

  /** Binary search among the segments lands on the chunk a linear walk would find. */
  lemma {:induction false} PickedChunk(vs: seq<SegView>, next: int, i: nat, off: int, maxBytes: int)
    requires Layout(vs, next) && i < |vs| && vs[i].base <= off < vs[i].End()
    ensures ReadAt(ChunksOf(vs), vs[0].base, off, maxBytes) == Slice(vs[i].batches, off, maxBytes)
  {
    var cs := ChunksOf(vs);
    assert cs[1..] == ChunksOf(vs[1..]);
    if i > 0 {
      LayoutAt(vs[1..], next, i - 1);
      PickedChunk(vs[1..], next, i - 1, off, maxBytes);
    }
  }

  // ---------------------------------------------------------------- appending, as a value

  function Rolls(vs: seq<SegView>, size: nat, segmentBytes: int): bool
    requires vs != []
  {
    var active := vs[|vs| - 1].Size();
    active > 0 && active + size > segmentBytes
  }

  /** One more batch in the active segment. */
  function AppendLast(vs: seq<SegView>, b: Batch): (ws: seq<SegView>)
    requires vs != []
    ensures |ws| == |vs|
  {
    var n := |vs| - 1;
    vs[..n] + [SegView(vs[n].base, vs[n].batches + [b])]
  }

  /** The segments after one append: a new segment if the active one would overflow. */
  function Extend(vs: seq<SegView>, b: Batch, segmentBytes: int): seq<SegView>
    requires vs != []
  {
    if Rolls(vs, |b.bytes|, segmentBytes) then AppendLast(vs + [SegView(b.base, [])], b)
    else AppendLast(vs, b)
  }

  lemma {:induction false} ChunksJoin(vs: seq<SegView>, ws: seq<SegView>)
    ensures ChunksOf(vs + ws) == ChunksOf(vs) + ChunksOf(ws)
  {
    if vs == [] {
      assert vs + ws == ws;
    } else {
      ChunksJoin(vs[1..], ws);
      assert (vs + ws)[1..] == vs[1..] + ws;
      Associative([vs[0].batches], ChunksOf(vs[1..]), ChunksOf(ws));
    }
  }

  lemma StoredJoin(vs: seq<SegView>, ws: seq<SegView>)
    ensures Stored(vs + ws) == Stored(vs) + Stored(ws)
  {
    ChunksJoin(vs, ws);
    FlatJoin(ChunksOf(vs), ChunksOf(ws));
  }

  lemma StoredOne(v: SegView)
    ensures Stored([v]) == v.batches
  {
    assert [v][1..] == [];
    assert ChunksOf([v]) == [v.batches];
    FlatOne(v.batches);
  }

  lemma AppendLastLayout(vs: seq<SegView>, next: int, b: Batch)
    requires Layout(vs, next) && WellFormed(b) && b.base == next
    ensures Layout(AppendLast(vs, b), b.next)
  {
    var n := |vs| - 1;
    var v, w := vs[n], SegView(vs[n].base, vs[n].batches + [b]);
    LayoutAt(vs, next, n);
    AppendChain(v.batches, b, v.base);
    if n > 0 {
      LayoutSplit(vs, next, n);
      LayoutJoin(vs[..n], v.base, [w], b.next);
    }
  }

  lemma AppendLastStores(vs: seq<SegView>, b: Batch)
    requires vs != []
    ensures Stored(AppendLast(vs, b)) == Stored(vs) + [b]
  {
    var n := |vs| - 1;
    var v, w := vs[n], SegView(vs[n].base, vs[n].batches + [b]);
    assert vs == vs[..n] + [v];
    StoredJoin(vs[..n], [v]);
    StoredJoin(vs[..n], [w]);
    StoredOne(v);
    StoredOne(w);
    Associative(Stored(vs[..n]), v.batches, [b]);
  }

  lemma RolledLayout(vs: seq<SegView>, next: int)
    requires Layout(vs, next)
    ensures Layout(vs + [SegView(next, [])], next) && Stored(vs + [SegView(next, [])]) == Stored(vs)
  {
    var v := SegView(next, []);
    LayoutJoin(vs, next, [v], next);
    StoredJoin(vs, [v]);
    StoredOne(v);
    assert Stored(vs) + [] == Stored(vs);
  }

  /** An append adds the batch at the end of what is stored, wherever it puts it. */
  lemma ExtendStores(vs: seq<SegView>, next: int, b: Batch, segmentBytes: int)
    requires Layout(vs, next) && WellFormed(b) && b.base == next
    ensures Layout(Extend(vs, b, segmentBytes), b.next)
    ensures Stored(Extend(vs, b, segmentBytes)) == Stored(vs) + [b]
  {
    if Rolls(vs, |b.bytes|, segmentBytes) {
      RolledLayout(vs, next);
      AppendLastLayout(vs + [SegView(b.base, [])], next, b);
      AppendLastStores(vs + [SegView(b.base, [])], b);
    } else {
      AppendLastLayout(vs, next, b);
      AppendLastStores(vs, b);
    }
  }

  /** No segment is larger than allowed, except for a single batch. */
  predicate Bounded(vs: seq<SegView>, segmentBytes: int)
  {
    forall i | 0 <= i < |vs| :: vs[i].Size() <= segmentBytes || |vs[i].batches| <= 1
  }

  lemma SizeWith(v: SegView, b: Batch)
    requires v.Valid()
    ensures SegView(v.base, v.batches + [b]).Size() == v.Size() + |b.bytes|
    ensures v.Size() > 0 <==> v.batches != []
  {
    ConcatJoin(v.batches, [b]);
    ConcatOne(b);
    if v.batches != [] {
      NonEmptyBytes(v.batches);
    }
  }

  lemma AppendLastBounded(vs: seq<SegView>, b: Batch, segmentBytes: int)
    requires vs != [] && vs[|vs| - 1].Valid() && Bounded(vs, segmentBytes)
    requires vs[|vs| - 1].batches == [] || vs[|vs| - 1].Size() + |b.bytes| <= segmentBytes
    ensures Bounded(AppendLast(vs, b), segmentBytes)
  {
    var n, ws := |vs| - 1, AppendLast(vs, b);
    SizeWith(vs[n], b);
    forall i | 0 <= i < |ws| ensures ws[i].Size() <= segmentBytes || |ws[i].batches| <= 1 {
      assert i < n ==> ws[i] == vs[i];
    }
  }

  /** When a segment is rolled: appending keeps every segment within its size, and starts a new one
      only if the batch would not fit behind what is in the active one. */
  lemma ExtendBounds(vs: seq<SegView>, next: int, b: Batch, segmentBytes: int)
    requires Layout(vs, next) && WellFormed(b) && b.base == next
    ensures Bounded(vs, segmentBytes) ==> Bounded(Extend(vs, b, segmentBytes), segmentBytes)
    ensures var n, last := |Extend(vs, b, segmentBytes)|, vs[|vs| - 1];
            && |vs| <= n <= |vs| + 1
            && (n == |vs| + 1 <==> last.batches != [] && last.Size() + |b.bytes| > segmentBytes)
  {
    LayoutAt(vs, next, |vs| - 1);
    SizeWith(vs[|vs| - 1], b);
    if Bounded(vs, segmentBytes) {
      if Rolls(vs, |b.bytes|, segmentBytes) {
        AppendLastBounded(vs + [SegView(b.base, [])], b, segmentBytes);
      } else {
        AppendLastBounded(vs, b, segmentBytes);
      }
    }
  }

  /** Dropping segments from the front leaves a well laid out log with the same end. */
  lemma DropLayout(vs: seq<SegView>, next: int, k: nat)
    requires Layout(vs, next) && k < |vs|
    ensures Layout(vs[k..], next) && Stored(vs) == Stored(vs[..k]) + Stored(vs[k..])
  {
    assert vs == vs[..k] + vs[k..];
    StoredJoin(vs[..k], vs[k..]);
    if k == 0 {
      assert vs[0..] == vs;
    } else {
      LayoutSplit(vs, next, k);
    }
  }

  lemma SizeStep(vs: seq<SegView>, i: nat)
    requires i < |vs|
    ensures SizeOf(vs[i..]) == vs[i].Size() + SizeOf(vs[i + 1..])
  {
    assert vs[i..][1..] == vs[i + 1..];
  }

  lemma {:induction false} SizeIs(vs: seq<SegView>)
    ensures SizeOf(vs) == |Concat(Stored(vs))|
  {
    if vs != [] {
      SizeIs(vs[1..]);
      assert vs == [vs[0]] + vs[1..];
      StoredJoin([vs[0]], vs[1..]);
      StoredOne(vs[0]);
      ConcatJoin(vs[0].batches, Stored(vs[1..]));
    }
  }

  /** Whether retention removes a segment when it is the oldest one left. */
  predicate Removable(vs: seq<SegView>, i: nat, expired: seq<bool>, maxBytes: int)
    requires i < |vs| && |expired| == |vs|
  {
    expired[i] || (maxBytes > 0 && SizeOf(vs[i..]) > maxBytes)
  }

  /** What retention leaves, in bytes: nothing expired and no more than the limit, unless only the
      active segment is left; without a limit only expired segments go. */
  lemma RetainedIs(vs: seq<SegView>, n: nat, expired: seq<bool>, maxBytes: int)
    requires n < |vs| == |expired| && forall i | 0 <= i < n :: Removable(vs, i, expired, maxBytes)
    requires n == |vs| - 1 || !Removable(vs, n, expired, maxBytes)
    ensures n == |vs| - 1 || (!expired[n] && (maxBytes <= 0 || |Concat(Stored(vs[n..]))| <= maxBytes))
    ensures maxBytes <= 0 ==> forall i | 0 <= i < n :: expired[i]
  {
    SizeIs(vs[n..]);
    forall i | 0 <= i < n && maxBytes <= 0 ensures expired[i] {
      assert Removable(vs, i, expired, maxBytes);
    }
  }

  // ---------------------------------------------------------------- the log

  datatype DiskSegment = DiskSegment(base: int, log: seq<byte>, idx: seq<byte>)

  function SealedFiles(segs: seq<Sealed>): (disk: seq<DiskSegment>)
    ensures |disk| == |segs|
    ensures forall i | 0 <= i < |segs| :: disk[i] == DiskSegment(segs[i].baseOffset, segs[i].log, segs[i].idx)
  {
    seq(|segs|, i requires 0 <= i < |segs| => DiskSegment(segs[i].baseOffset, segs[i].log, segs[i].idx))
  }

  /** The files of a log that was cut off while its active segment was written: every older
      segment is complete, the active one ends in an unreadable tail and its index file may hold
      anything. */
  ghost predicate OnDisk(disk: seq<DiskSegment>, vs: seq<SegView>, interval: int, tail: seq<byte>)
  {
    && |disk| == |vs| > 0 && Unreadable(tail)
    && (forall i | 0 <= i < |vs| :: disk[i].base == vs[i].base)
    && (forall i | 0 <= i < |vs| - 1 ::
          var es := Indexed(vs[i].batches, vs[i].base, interval).entries;
          disk[i].log == Concat(vs[i].batches) && disk[i].idx == EncodeEntries(es) && EntriesFit(es))
    && disk[|vs| - 1].log == Concat(vs[|vs| - 1].batches) + tail
  }

  /** Opens every segment but the active one from its files. */
  method OpenOlder(disk: seq<DiskSegment>, interval: int, ghost vs: seq<SegView>, ghost tail: seq<byte>)
      returns (segs: seq<Sealed>)
    requires OnDisk(disk, vs, interval, tail)
    ensures |segs| == |vs| - 1 && AllShow(segs, vs, interval)
  {
    segs := [];
    for i := 0 to |disk| - 1
      invariant |segs| == i && AllShow(segs, vs, interval)
    {
      var entries := DecodeIndexEntries(disk[i].idx, Indexed(vs[i].batches, vs[i].base, interval).entries);
      segs := segs + [Sealed(disk[i].base, disk[i].log, disk[i].idx, entries)];
    }
  }

  /** Each rolled segment holds what the value beside it says. */
  predicate AllShow(segs: seq<Sealed>, vs: seq<SegView>, interval: int)
  {
    |segs| <= |vs| && forall i {:trigger segs[i].Shows(vs[i], interval)} | 0 <= i < |segs| ::
      segs[i].Shows(vs[i], interval)
  }

  lemma ShowsOneMore(segs: seq<Sealed>, s: Sealed, vs: seq<SegView>, v: SegView, interval: int)
    requires AllShow(segs, vs, interval) && |vs| == |segs| + 1 && s.Shows(vs[|segs|], interval)
    ensures AllShow(segs + [s], vs + [v], interval)
  {
    forall i | 0 <= i < |segs| + 1 ensures (segs + [s])[i].Shows((vs + [v])[i], interval) {
      assert i < |segs| ==> segs[i].Shows(vs[i], interval);
    }
  }

  /** The file log. The segments it has rolled past are frozen values; only the active one is
      an object that changes. */
  class Log {
    const segmentBytes: int
    const indexInterval: int
    var sealed: seq<Sealed>
    var active: Segment
    var nextOffset: int
    var highWatermark: int
    var holdHWM: bool
    ghost var views: seq<SegView>

    ghost predicate Valid()
      reads this, active
    {
      && |views| == |sealed| + 1 && AllShow(sealed, views, indexInterval)
      && active.Appendable() && active.View() == views[|sealed|] && active.indexInterval == indexInterval
      && Layout(views, nextOffset)
      && highWatermark <= nextOffset
    }

    /** What the log holds. */
    ghost function Contents(): seq<Batch>
      reads this
    {
      Stored(views)
    }

    function EarliestOffset(): int
      reads this, active
    {
      if sealed == [] then active.baseOffset else sealed[0].baseOffset
    }

    lemma EarliestIsFirst()
      requires Valid()
      ensures EarliestOffset() == views[0].base
    {
      if sealed != [] {
        assert sealed[0].Shows(views[0], indexInterval);
      }
    }

    /** Open on an empty directory. */
    constructor Create(segmentBytes: int, indexInterval: int)
      ensures Valid() && views == [SegView(0, [])] && nextOffset == highWatermark == 0 && !holdHWM
      ensures this.segmentBytes == segmentBytes && this.indexInterval == indexInterval
    {
      var s := new Segment.Create(0, indexInterval);
      this.segmentBytes, this.indexInterval := segmentBytes, indexInterval;
      sealed, active, views := [], s, [SegView(0, [])];
      nextOffset, highWatermark, holdHWM := 0, 0, false;
    }

    /** Open after a crash: the log comes back with exactly the whole batches, at the offsets
        they had. */
    constructor Open(disk: seq<DiskSegment>, segmentBytes: int, indexInterval: int,
                     ghost vs: seq<SegView>, ghost next: int, ghost tail: seq<byte>)
      requires OnDisk(disk, vs, indexInterval, tail) && Layout(vs, next) && vs[0].base >= 0
      ensures Valid() && views == vs && nextOffset == highWatermark == next && !holdHWM
    {
      var segs := OpenOlder(disk, indexInterval, vs, tail);
      var n := |disk| - 1;
      var a := new Segment.Open(disk[n].base, indexInterval, disk[n].log, disk[n].idx, []);
      LayoutAt(vs, next, n);
      var leo := RecoverActive(a, vs[n].batches, tail);
      this.segmentBytes, this.indexInterval := segmentBytes, indexInterval;
      sealed, active, views := segs, a, vs;
      nextOffset, highWatermark, holdHWM := leo, leo, false;
    }

    /** The files behind the log. */
    function Files(): (disk: seq<DiskSegment>)
      reads this, active
      ensures |disk| == |sealed| + 1
    {
      SealedFiles(sealed) + [DiskSegment(active.baseOffset, active.log, active.idx)]
    }

    /** roll: starts a new segment at the log end. */
    method Roll()
      requires Valid()
      modifies this
      ensures Valid() && fresh(active) && views == old(views) + [SegView(nextOffset, [])]
      ensures unchanged(this`nextOffset, this`highWatermark, this`holdHWM)
    {
      RolledLayout(views, nextOffset);
      ShowsOneMore(sealed, active.Freeze(), views, SegView(nextOffset, []), indexInterval);
      var s := new Segment.Create(nextOffset, indexInterval);
      sealed := sealed + [active.Freeze()];
      active := s;
      views := views + [SegView(nextOffset, [])];
    }

    method RollIfNeeded(size: nat)
      requires Valid()
      modifies this
      ensures Valid() && (active == old(active) || fresh(active))
      ensures views == if Rolls(old(views), size, segmentBytes)
                       then old(views) + [SegView(nextOffset, [])] else old(views)
      ensures unchanged(this`nextOffset, this`highWatermark, this`holdHWM)
    {
      if active.logSize > 0 && active.logSize + size > segmentBytes {
        Roll();
      }
    }

    method AppendToActive(b: Batch)
      requires Valid() && WellFormed(b) && b.base == nextOffset
      modifies this`nextOffset, this`views, active
      ensures Valid() && nextOffset == b.next
      ensures views == AppendLast(old(views), b)
    {
      ghost var vs := views;
      AppendLastLayout(vs, nextOffset, b);
      active.Append(b);
      nextOffset := b.next;
      views := AppendLast(vs, b);
      forall i | 0 <= i < |sealed| ensures sealed[i].Shows(views[i], indexInterval) {
        assert sealed[i].Shows(vs[i], indexInterval);
      }
    }

    method Store(b: Batch)
      requires Valid() && WellFormed(b) && b.base == nextOffset
      modifies this, active
      ensures Valid() && (active == old(active) || fresh(active))
      ensures views == Extend(old(views), b, segmentBytes) && nextOffset == b.next
      ensures Contents() == old(Contents()) + [b]
      ensures unchanged(this`highWatermark, this`holdHWM)
    {
      ghost var vs := Extend(views, b, segmentBytes);
      ExtendStores(views, nextOffset, b, segmentBytes);
      RollIfNeeded(|b.bytes|);
      AppendToActive(b);
      assert views == vs;
    }

    /** The rest of Append, once the batch carries its offset. */
    method Commit(b: Batch)
      requires Valid() && WellFormed(b) && b.base == nextOffset
      modifies this, active
      ensures Valid() && (active == old(active) || fresh(active)) && holdHWM == old(holdHWM)
      ensures views == Extend(old(views), b, segmentBytes) && nextOffset == b.next
      ensures Contents() == old(Contents()) + [b]
      ensures highWatermark == if holdHWM then old(highWatermark) else nextOffset
    {
      ghost var was := Contents();
      Store(b);
      if !holdHWM {
        SetHighWatermark(nextOffset);
      }
      assert Contents() == was + [b];
    }

    /** Append: gives the batch the log end offset, patches it in place, rolls if the active
        segment would overflow, and stores it. A batch whose header does not parse is refused
        with nothing stored (a segment may have been rolled by then). */
    method Append(batch: array<byte>, crc: seq<byte> -> nat) returns (base: int, ok: bool)
      requires Valid() && FitsInt(nextOffset, 8) && batch.Length >= 21
      requires ParseHeader(batch[..]).Ok? ==> IsBatch(batch[..])
      modifies this, active, batch
      ensures Valid() && (active == old(active) || fresh(active)) && holdHWM == old(holdHWM)
      ensures batch[..] == Assigned(old(batch[..]), old(nextOffset), crc)
      ensures ok <==> ParseHeader(old(batch[..])).Ok?
      ensures ok ==> && IsBatch(batch[..]) && base == old(nextOffset)
                     && nextOffset == ToBatch(batch[..]).next
                     && views == Extend(old(views), ToBatch(batch[..]), segmentBytes)
                     && Contents() == old(Contents()) + [ToBatch(batch[..])]
      ensures !ok ==> Contents() == old(Contents()) && nextOffset == old(nextOffset)
      ensures highWatermark == if ok && !holdHWM then nextOffset else old(highWatermark)
    {
      base := nextOffset;
      ghost var given := batch[..];
      AssignOffset(batch, base, crc);
      if batch.Length >= HEADER_SIZE {
        AssignedIsBatch(given, base, crc);
      }
      ok := ParseHeader(batch[..]).Ok?;
      if ok {
        Commit(ToBatch(batch[..]));
      } else {
        RolledLayout(views, base);
        RollIfNeeded(batch.Length);
      }
    }

    /** AppendReplica: the follower's append keeps the leader's bytes and offsets. A batch
        already held is skipped, a gap is refused, and the high watermark never moves. */
    method AppendReplica(batch: seq<byte>) returns (leo: int, ok: bool)
      requires Valid() && (ParseHeader(batch).Ok? ==> IsBatch(batch))
      modifies this, active
      ensures Valid() && (active == old(active) || fresh(active))
      ensures unchanged(this`highWatermark, this`holdHWM)
      ensures ok <==> IsBatch(batch) && ToBatch(batch).base <= old(nextOffset)
      ensures if IsBatch(batch) && ToBatch(batch).base == old(nextOffset)
              then views == Extend(old(views), ToBatch(batch), segmentBytes)
                   && Contents() == old(Contents()) + [ToBatch(batch)] && nextOffset == ToBatch(batch).next
              else views == old(views) && nextOffset == old(nextOffset)
      ensures ParseHeader(batch).Ok? ==> leo == nextOffset
    {
      leo, ok := 0, false;
      if !ParseHeader(batch).Ok? {
        return;
      }
      var b := ToBatch(batch);
      if b.base < nextOffset {
        return nextOffset, true;
      }
      if b.base > nextOffset {
        return nextOffset, false;
      }
      Store(b);
      leo, ok := nextOffset, true;
    }

    /** SetHighWatermark: moves forward only, and never past the log end. */
    method SetHighWatermark(hwm: int)
      requires Valid()
      modifies this`highWatermark
      ensures Valid() && Contents() == old(Contents())
      ensures highWatermark == Raised(old(highWatermark), hwm, nextOffset)
    {
      var h := if hwm > nextOffset then nextOffset else hwm;
      if h > highWatermark {
        highWatermark := h;
      }
    }

    method HoldHighWatermark()
      requires Valid()
      modifies this`holdHWM
      ensures Valid() && holdHWM
    {
      holdHWM := true;
    }

    /** segmentFor: the index of the last segment that starts at or before the offset (the
        active segment counts as the last one). */
    method SegmentFor(offset: int) returns (i: nat)
      requires Valid() && offset < nextOffset
      ensures i < |views| && offset < views[i].End()
      ensures if offset < views[0].base then i == 0 else views[i].base <= offset
    {
      var lo, hi := 0, |sealed| + 1;
      while lo < hi
        invariant 0 <= lo <= hi <= |sealed| + 1
        invariant lo > 0 ==> views[lo - 1].base <= offset
        invariant hi <= |sealed| ==> offset < views[hi].base
      {
        var mid := (lo + hi) / 2;
        assert mid < |sealed| ==> sealed[mid].Shows(views[mid], indexInterval);
        var base := if mid < |sealed| then sealed[mid].baseOffset else active.baseOffset;
        if base > offset {
          hi := mid;
        } else {
          lo := mid + 1;
        }
      }
      i := if lo == 0 then 0 else lo - 1;
      LayoutAt(views, nextOffset, i);
    }

    /** Read: what the segment search, the index floor and the forward scan return together is
        the reference read over the stored batches. */
    method Read(offset: int, maxBytes: int) returns (r: ReadResult)
      requires Valid()
      ensures r == BackendRead(ChunksOf(views), EarliestOffset(), nextOffset, offset, maxBytes)
    {
      EarliestIsFirst();
      if offset == nextOffset {
        return Data([]);
      }
      if offset > nextOffset || offset < EarliestOffset() {
        return OutOfRange;
      }
      var i := SegmentFor(offset);
      LayoutAt(views, nextOffset, i);
      PickedChunk(views, nextOffset, i, offset, maxBytes);
      var out;
      if i < |sealed| {
        assert sealed[i].Shows(views[i], indexInterval);
        out := sealed[i].ReadBatchesFrom(offset, maxBytes, views[i], indexInterval);
      } else {
        out := active.ReadBatchesFrom(offset, maxBytes);
      }
      r := Data(out);
    }

    /** The retention loop: how many segments to drop. */
    method CountRemovable(expired: seq<bool>, maxBytes: int) returns (deleted: nat)
      requires Valid() && |expired| == |views|
      ensures deleted < |views|
      ensures forall i | 0 <= i < deleted :: Removable(views, i, expired, maxBytes)
      ensures deleted == |views| - 1 || !Removable(views, deleted, expired, maxBytes)
    {
      var total := active.logSize;
      assert views[|sealed|..] == [views[|sealed|]];
      for i := |sealed| downto 0
        invariant total == SizeOf(views[i..])
      {
        SizeStep(views, i);
        assert sealed[i].Shows(views[i], indexInterval);
        total := total + |sealed[i].log|;
      }
      deleted := 0;
      while deleted < |sealed|
        invariant deleted <= |sealed| && total == SizeOf(views[deleted..])
        invariant forall i | 0 <= i < deleted :: Removable(views, i, expired, maxBytes)
      {
        var overSize := maxBytes > 0 && total > maxBytes;
        if !expired[deleted] && !overSize {
          return;
        }
        SizeStep(views, deleted);
        assert sealed[deleted].Shows(views[deleted], indexInterval);
        total := total - |sealed[deleted].log|;
        deleted := deleted + 1;
      }
    }

    /** EnforceRetention: drops whole segments from the front while the oldest one is too old
        or the rest is too big, and never the active one. */
    method EnforceRetention(expired: seq<bool>, maxBytes: int) returns (deleted: nat)
      requires Valid() && |expired| == |views|
      modifies this`sealed, this`views
      ensures Valid() && deleted < |old(views)| && views == old(views)[deleted..]
      ensures forall i | 0 <= i < deleted :: Removable(old(views), i, expired, maxBytes)
      ensures |views| == 1 || !Removable(old(views), deleted, expired, maxBytes)
      ensures old(Contents()) == Stored(old(views)[..deleted]) + Contents()
      ensures |views| == 1 || (!expired[deleted] && (maxBytes <= 0 || |Concat(Contents())| <= maxBytes))
      ensures maxBytes <= 0 ==> forall i | 0 <= i < deleted :: expired[i]
    {
      deleted := CountRemovable(expired, maxBytes);
      RetainedIs(views, deleted, expired, maxBytes);
      DropLayout(views, nextOffset, deleted);
      ghost var segs, vs := sealed, views;
      sealed := sealed[deleted..];
      views := views[deleted..];
      forall i | 0 <= i < |sealed| ensures sealed[i].Shows(views[i], indexInterval) {
        assert segs[deleted + i].Shows(vs[deleted + i], indexInterval);
      }
    }
  }

  // ---------------------------------------------------------------- a crash

  /** The segments with the active one cut behind its first i batches. */
  function CutTo(vs: seq<SegView>, i: nat): (ws: seq<SegView>)
    requires vs != [] && i <= |vs[|vs| - 1].batches|
    ensures |ws| == |vs|
  {
    var n := |vs| - 1;
    vs[..n] + [SegView(vs[n].base, vs[n].batches[..i])]
  }

  lemma CutLayout(vs: seq<SegView>, next: int, i: nat)
    requires Layout(vs, next) && i <= |vs[|vs| - 1].batches|
    ensures var n := |vs| - 1; Layout(CutTo(vs, i), StartOf(vs[n].batches, i, next))
    ensures Stored(vs) == Stored(CutTo(vs, i)) + vs[|vs| - 1].batches[i..]
  {
    var n := |vs| - 1;
    var v, w := vs[n], SegView(vs[n].base, vs[n].batches[..i]);
    LayoutAt(vs, next, n);
    ChainSplit(v.batches, i, v.base, next);
    ChainBounds(w.batches, v.base, StartOf(v.batches, i, next));
    forall j | 0 <= j < |w.batches| ensures WellFormed(w.batches[j]) {
      assert WellFormed(v.batches[j]);
    }
    assert Layout([w], StartOf(v.batches, i, next));
    if n > 0 {
      LayoutSplit(vs, next, n);
      LayoutJoin(vs[..n], v.base, [w], StartOf(v.batches, i, next));
    }
    CutStores(vs, i);
  }

  lemma CutStores(vs: seq<SegView>, i: nat)
    requires vs != [] && i <= |vs[|vs| - 1].batches|
    ensures Stored(vs) == Stored(CutTo(vs, i)) + vs[|vs| - 1].batches[i..]
  {
    var n := |vs| - 1;
    var v, w := vs[n], SegView(vs[n].base, vs[n].batches[..i]);
    assert vs == vs[..n] + [v];
    StoredJoin(vs[..n], [v]);
    StoredJoin(vs[..n], [w]);
    StoredOne(v);
    StoredOne(w);
    assert v.batches == v.batches[..i] + v.batches[i..];
    Associative(Stored(vs[..n]), v.batches[..i], v.batches[i..]);
  }

  /** The files of a log with the active segment's log file cut at byte c and its index file
      anything at all. */
  function CutFiles(disk: seq<DiskSegment>, c: nat, idx: seq<byte>): seq<DiskSegment>
    requires disk != [] && c <= |disk[|disk| - 1].log|
  {
    var n := |disk| - 1;
    disk[..n] + [DiskSegment(disk[n].base, disk[n].log[..c], idx)]
  }

  /** A log that was open is closed by a crash that leaves any part of what was written to the
      active segment. Opening its own files brings back every older segment and the whole batches
      that were left of the active one: a prefix of the contents, with the offsets to match. */
  method Reopen(l: Log, c: nat, idx: seq<byte>) returns (r: Log, ghost kept: nat)
    requires l.Valid() && l.views[0].base >= 0 && c <= |l.active.log|
    requires forall i | 0 <= i < |l.sealed| :: EntriesFit(l.sealed[i].index)
    ensures r.Valid() && kept <= |l.active.batches| && r.views == CutTo(l.views, kept)
    ensures l.Contents() == r.Contents() + l.active.batches[kept..]
    ensures r.nextOffset == r.highWatermark == StartOf(l.active.batches, kept, l.nextOffset)
    ensures c == |l.active.log| ==> kept == |l.active.batches|
  {
    ghost var tail;
    ghost var n := |l.sealed|;
    LayoutAt(l.views, l.nextOffset, n);
    kept, tail := CutAnywhere(l.active.batches, c);
    CutLayout(l.views, l.nextOffset, kept);
    ghost var vs, next := CutTo(l.views, kept), StartOf(l.active.batches, kept, l.nextOffset);
    var disk := CutFiles(l.Files(), c, idx);
    CutOnDisk(l.Files(), disk, l.sealed, l.views, l.indexInterval, c, idx, kept, tail);
    r := new Log.Open(disk, l.segmentBytes, l.indexInterval, vs, next, tail);
  }

  lemma CutOnDisk(files: seq<DiskSegment>, disk: seq<DiskSegment>, segs: seq<Sealed>, vs: seq<SegView>, interval: int,
                  c: nat, idx: seq<byte>, kept: nat, tail: seq<byte>)
    requires |vs| == |segs| + 1 == |files| && AllShow(segs, vs, interval)
    requires forall i | 0 <= i < |segs| :: files[i] == DiskSegment(segs[i].baseOffset, segs[i].log, segs[i].idx)
    requires forall i | 0 <= i < |segs| :: EntriesFit(segs[i].index)
    requires var v, f := vs[|segs|], files[|segs|];
             && f.base == v.base && f.log == Concat(v.batches) && c <= |f.log| && kept <= |v.batches|
             && f.log[..c] == Concat(v.batches[..kept]) + tail && Unreadable(tail)
    requires disk == CutFiles(files, c, idx)
    ensures OnDisk(disk, CutTo(vs, kept), interval, tail)
  {
    var n, ws := |segs|, CutTo(vs, kept);
    forall i | 0 <= i < n
      ensures disk[i].base == ws[i].base
      ensures var es := Indexed(ws[i].batches, ws[i].base, interval).entries;
              disk[i].log == Concat(ws[i].batches) && disk[i].idx == EncodeEntries(es) && EntriesFit(es)
    {
      assert segs[i].Shows(vs[i], interval);
    }
  }
}
