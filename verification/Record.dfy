/** Record batches (Kafka RecordBatch, message format v2): header parsing and patching, and
    the byte layout of a run of batches. The 61-byte header is read at the byte positions
    of section 5.3.1 "Record Batch" of the Apache Kafka documentation; the records behind
    it are opaque. */
module Record {
  import opened Bytes
  import opened Seqs

  const HEADER_SIZE := 61

  datatype Header = Header(baseOffset: int, batchLength: int, lastOffsetDelta: int,
                           firstTimestamp: int, maxTimestamp: int, recordCount: int)
  {
    function TotalSize(): int { 12 + batchLength }
    function LastOffset(): int { baseOffset + lastOffsetDelta }
  }

  datatype Parsed = Ok(header: Header) | TooShort | BadMagic

  function ParseHeader(s: seq<byte>): (p: Parsed)
  {
    if |s| < HEADER_SIZE then TooShort
    else if Int(s[16..17]) != 2 then BadMagic
    else Ok(Header(Int(s[0..8]), Int(s[8..12]), Int(s[23..27]),
                   Int(s[27..35]), Int(s[35..43]), Int(s[57..61])))
  }

  /** What the storage layers rely on and the header parser does not check: the slice is
      exactly one batch, and its record count agrees with its offset span. */
  predicate IsBatch(s: seq<byte>)
  {
    var p := ParseHeader(s);
    && p.Ok?
    && p.header.TotalSize() == |s|
    && p.header.recordCount == p.header.lastOffsetDelta + 1
    && p.header.recordCount >= 1
  }

  /** A batch with the header fields the log needs read off: offsets [base, next). */
  datatype Batch = Batch(base: int, next: int, maxTs: int, bytes: seq<byte>)

  function ToBatch(s: seq<byte>): (b: Batch)
    requires IsBatch(s)
    ensures b.bytes == s && b.base < b.next
  {
    var h := ParseHeader(s).header;
    Batch(h.baseOffset, h.LastOffset() + 1, h.maxTimestamp, s)
  }

  predicate WellFormed(b: Batch)
  {
    IsBatch(b.bytes) && b == ToBatch(b.bytes)
  }

  predicate Sound(bs: seq<Batch>)
  {
    forall i {:trigger WellFormed(bs[i])} | 0 <= i < |bs| :: WellFormed(bs[i])
  }

  /** The batches cover the offsets [from, to) without gap or overlap. */
  predicate Chain(bs: seq<Batch>, from: int, to: int)
  {
    if bs == [] then from == to
    else bs[0].base == from && from < bs[0].next && Chain(bs[1..], bs[0].next, to)
  }

  function Concat(bs: seq<Batch>): (s: seq<byte>)
  {
    if bs == [] then [] else bs[0].bytes + Concat(bs[1..])
  }

  // ---------------------------------------------------------------- chains

  lemma {:induction false} ChainJoin(bs: seq<Batch>, cs: seq<Batch>, from: int, mid: int, to: int)
    requires Chain(bs, from, mid) && Chain(cs, mid, to)
    ensures Chain(bs + cs, from, to)
  {
    if bs == [] {
      assert bs + cs == cs;
    } else {
      ChainJoin(bs[1..], cs, bs[0].next, mid, to);
      assert (bs + cs)[1..] == bs[1..] + cs;
    }
  }

  /** Where the i-th batch of a chain starts (the chain's end for i == |bs|). */
  function StartOf(bs: seq<Batch>, i: nat, to: int): int
    requires i <= |bs|
  {
    if i < |bs| then bs[i].base else to
  }

  lemma {:induction false} ChainSplit(bs: seq<Batch>, i: nat, from: int, to: int)
    requires Chain(bs, from, to) && i <= |bs|
    ensures Chain(bs[..i], from, StartOf(bs, i, to)) && Chain(bs[i..], StartOf(bs, i, to), to)
  {
    if i == 0 {
      assert bs[..0] == [] && bs[0..] == bs;
    } else {
      ChainSplit(bs[1..], i - 1, bs[0].next, to);
      assert bs[..i][1..] == bs[1..][..i - 1];
      assert bs[i..] == bs[1..][i - 1..];
    }
  }

  lemma {:induction false} ChainBounds(bs: seq<Batch>, from: int, to: int)
    requires Chain(bs, from, to)
    ensures from <= to && (from == to <==> bs == [])
    ensures forall i | 0 <= i < |bs| :: from <= bs[i].base < bs[i].next <= to
    ensures bs != [] ==> bs[0].base == from && bs[|bs| - 1].next == to
  {
    if bs != [] {
      ChainBounds(bs[1..], bs[0].next, to);
      forall i | 0 <= i < |bs| ensures from <= bs[i].base < bs[i].next <= to {
        if i > 0 {
          assert bs[i] == bs[1..][i - 1];
        }
      }
      if |bs| > 1 {
        assert bs[|bs| - 1] == bs[1..][|bs| - 2];
      }
    }
  }

  /** Offsets grow along a chain: batch i ends where or before batch j starts. */
  lemma ChainOrdered(bs: seq<Batch>, from: int, to: int, i: nat, j: nat)
    requires Chain(bs, from, to) && i < j <= |bs|
    ensures bs[i].next <= StartOf(bs, j, to)
    ensures j == i + 1 ==> bs[i].next == StartOf(bs, j, to)
  {
    ChainSplit(bs, j, from, to);
    ChainBounds(bs[..j], from, StartOf(bs, j, to));
    assert bs[i] == bs[..j][i];
  }

  // ---------------------------------------------------------------- byte layout

  lemma {:induction false} ConcatJoin(bs: seq<Batch>, cs: seq<Batch>)
    ensures Concat(bs + cs) == Concat(bs) + Concat(cs)
  {
    if bs == [] {
      assert bs + cs == cs;
    } else {
      ConcatJoin(bs[1..], cs);
      assert (bs + cs)[1..] == bs[1..] + cs;
      Associative(bs[0].bytes, Concat(bs[1..]), Concat(cs));
    }
  }

  lemma ConcatOne(b: Batch)
    ensures Concat([b]) == b.bytes
  {
    assert [b][1..] == [];
  }

  /** Byte position of the i-th batch. */
  function PosOf(bs: seq<Batch>, i: nat): (p: nat)
    requires i <= |bs|
  {
    |Concat(bs[..i])|
  }

  /** Only the first 61 bytes decide what the header parser returns. */
  lemma ParsePrefix(s: seq<byte>, t: seq<byte>)
    requires HEADER_SIZE <= |s| <= |t| && t[..|s|] == s
    ensures ParseHeader(t) == ParseHeader(s)
  {
    SliceSlice(t, 0, |s|, 16, 17);
    SliceSlice(t, 0, |s|, 0, 8);
    SliceSlice(t, 0, |s|, 8, 12);
    SliceSlice(t, 0, |s|, 23, 27);
    SliceSlice(t, 0, |s|, 27, 35);
    SliceSlice(t, 0, |s|, 35, 43);
    SliceSlice(t, 0, |s|, 57, 61);
  }

  lemma HeaderOf(b: Batch, data: seq<byte>)
    requires WellFormed(b) && |b.bytes| <= |data| && data[..|b.bytes|] == b.bytes
    ensures var p := ParseHeader(data);
            && p.Ok?
            && p.header.TotalSize() == |b.bytes| >= HEADER_SIZE
            && p.header.baseOffset == b.base
            && p.header.LastOffset() + 1 == b.next
            && p.header.baseOffset + p.header.recordCount == b.next
            && p.header.maxTimestamp == b.maxTs
  {
    ParsePrefix(b.bytes, data);
  }

  lemma ConcatAround(bs: seq<Batch>, i: nat)
    requires i < |bs|
    ensures Concat(bs) == Concat(bs[..i]) + bs[i].bytes + Concat(bs[i + 1..])
    ensures PosOf(bs, i + 1) == PosOf(bs, i) + |bs[i].bytes|
  {
    assert bs == bs[..i + 1] + bs[i + 1..];
    ConcatJoin(bs[..i + 1], bs[i + 1..]);
    assert bs[..i + 1] == bs[..i] + [bs[i]];
    ConcatJoin(bs[..i], [bs[i]]);
    ConcatOne(bs[i]);
  }

  /** What lies at the byte position of the i-th batch, whatever bytes follow the run. */
  lemma BatchAt(bs: seq<Batch>, i: nat, tail: seq<byte>)
    requires i < |bs|
    ensures var data := Concat(bs) + tail;
            var pos := PosOf(bs, i);
            && PosOf(bs, i + 1) == pos + |bs[i].bytes| <= |Concat(bs)|
            && data[pos..pos + |bs[i].bytes|] == bs[i].bytes
  {
    ConcatAround(bs, i);
    var a, x, y := Concat(bs[..i]), bs[i].bytes, Concat(bs[i + 1..]);
    Associative(a + x, y, tail);
    Window(a, x, y + tail);
  }

  /** The parser's view of that position: the header of the i-th batch. */
  lemma HeaderAt(bs: seq<Batch>, i: nat, tail: seq<byte>)
    requires Sound(bs) && i < |bs|
    ensures var data := Concat(bs) + tail;
            var pos := PosOf(bs, i);
            pos <= |data| &&
            var p := ParseHeader(data[pos..]);
            && p.Ok?
            && p.header.TotalSize() == |bs[i].bytes| >= HEADER_SIZE
            && p.header.baseOffset == bs[i].base
            && p.header.LastOffset() + 1 == bs[i].next
            && p.header.maxTimestamp == bs[i].maxTs
  {
    BatchAt(bs, i, tail);
    HeaderOf(bs[i], (Concat(bs) + tail)[PosOf(bs, i)..]);
  }

  lemma PosEnds(bs: seq<Batch>)
    ensures PosOf(bs, 0) == 0 && PosOf(bs, |bs|) == |Concat(bs)|
  {
    assert bs[..|bs|] == bs;
  }

  lemma PosMonotone(bs: seq<Batch>, i: nat, j: nat)
    requires i <= j <= |bs|
    ensures PosOf(bs, i) <= PosOf(bs, j)
    ensures Sound(bs) && i < j ==> PosOf(bs, i) + HEADER_SIZE <= PosOf(bs, j)
  {
    assert bs[..j] == bs[..i] + bs[i..j];
    ConcatJoin(bs[..i], bs[i..j]);
    if Sound(bs) && i < j {
      HeaderOf(bs[i], bs[i].bytes);
      assert bs[i..j][0] == bs[i];
    }
  }

  /** The bytes of a header, field by field as the format lays them out; the leader epoch, checksum,
      attributes and producer fields are 0. */
  function HeaderBytes(h: Header): seq<byte>
  {
    PutInt(h.baseOffset, 8) + (PutInt(h.batchLength, 4) + (PutInt(0, 4) + (PutInt(2, 1) + (PutInt(0, 6)
    + (PutInt(h.lastOffsetDelta, 4) + (PutInt(h.firstTimestamp, 8) + (PutInt(h.maxTimestamp, 8)
    + (PutInt(0, 14) + PutInt(h.recordCount, 4)))))))))
  }

  predicate HeaderFits(h: Header)
  {
    && FitsInt(h.baseOffset, 8) && FitsInt(h.batchLength, 4) && FitsInt(h.lastOffsetDelta, 4)
    && FitsInt(h.firstTimestamp, 8) && FitsInt(h.maxTimestamp, 8) && FitsInt(h.recordCount, 4)
  }

  lemma HeaderFields(s: seq<byte>, off: seq<byte>, len: seq<byte>, a: seq<byte>, magic: seq<byte>, b: seq<byte>,
                        delta: seq<byte>, first: seq<byte>, last: seq<byte>, c: seq<byte>, count: seq<byte>)
    requires s == off + (len + (a + (magic + (b + (delta + (first + (last + (c + count))))))))
    requires |off| == |first| == |last| == 8 && |len| == |a| == |delta| == |count| == 4
    requires |magic| == 1 && |b| == 6 && |c| == 14
    ensures |s| == HEADER_SIZE && s[0..8] == off && s[8..12] == len && s[16..17] == magic && s[23..27] == delta
    ensures s[27..35] == first && s[35..43] == last && s[57..61] == count
  {
    var t8 := c + count;
    var t6 := first + (last + t8);
    var t4 := b + (delta + t6);
    assert s[0..] == s;
    Front(s, 0, off, len + (a + (magic + t4)));
    Front(s, 8, len, a + (magic + t4));
    Front(s, 12, a, magic + t4);
    Front(s, 16, magic, t4);
    Front(s, 17, b, delta + t6);
    Front(s, 23, delta, t6);
    Front(s, 27, first, last + t8);
    Front(s, 35, last, t8);
    Front(s, 43, c, count);
    assert s[57..61] == s[57..];
  }

  /** The parser reads back every field of every header. */
  lemma HeaderRoundTrip(h: Header)
    requires HeaderFits(h)
    ensures |HeaderBytes(h)| == HEADER_SIZE && ParseHeader(HeaderBytes(h)) == Ok(h)
  {
    HeaderFields(HeaderBytes(h), PutInt(h.baseOffset, 8), PutInt(h.batchLength, 4), PutInt(0, 4), PutInt(2, 1),
                 PutInt(0, 6), PutInt(h.lastOffsetDelta, 4), PutInt(h.firstTimestamp, 8), PutInt(h.maxTimestamp, 8),
                 PutInt(0, 14), PutInt(h.recordCount, 4));
    IntOfPutInt(h.baseOffset, 8);
    IntOfPutInt(h.batchLength, 4);
    MagicReads();
    IntOfPutInt(h.lastOffsetDelta, 4);
    IntOfPutInt(h.firstTimestamp, 8);
    IntOfPutInt(h.maxTimestamp, 8);
    IntOfPutInt(h.recordCount, 4);
  }

  /** And it takes any other bytes too, as long as there are enough of them and the magic byte is 2. */
  lemma HeaderAccepted(s: seq<byte>)
    ensures ParseHeader(s).Ok? <==> |s| >= 61 && s[16] == 2
    ensures ParseHeader(s).TooShort? <==> |s| < 61
  {
    if |s| >= 61 {
      RadixValues();
      assert s[16..17] == [s[16]] && Uint([s[16]]) == s[16];
    }
  }

  lemma MagicReads()
    ensures Int(PutInt(2, 1)) == 2
  {
    RadixValues();
    IntOfPutInt(2, 1);
  }

  /** A batch of one record with an empty body, at offset off: the smallest there is. */
  function Smallest(off: int): Batch
  {
    Batch(off, off + 1, 0, HeaderBytes(Header(off, 49, 0, 0, 0, 1)))
  }

  /** At every offset there is a well-formed batch. */
  lemma SmallestIs(off: int)
    requires FitsInt(off, 8)
    ensures WellFormed(Smallest(off))
  {
    RadixValues();
    HeaderRoundTrip(Header(off, 49, 0, 0, 0, 1));
  }

  /** Bytes at which a scan stops: the header is missing or malformed, or it announces more bytes
      than are there. */
  predicate Unreadable(t: seq<byte>)
  {
    t == [] || (var p := ParseHeader(t); !p.Ok? || p.header.TotalSize() > |t|)
  }

  /** The beginning of a batch is unreadable until the batch is whole. */
  lemma PrefixUnreadable(b: Batch, m: nat)
    requires WellFormed(b) && m < |b.bytes|
    ensures Unreadable(b.bytes[..m])
  {
    HeaderOf(b, b.bytes);
    if m >= HEADER_SIZE {
      ParsePrefix(b.bytes[..m], b.bytes);
    }
  }

  lemma {:induction false} CutBytes(bs: seq<Batch>, c: nat) returns (i: nat, m: nat)
    requires c <= |Concat(bs)|
    ensures i <= |bs| && (if i < |bs| then m < |bs[i].bytes| else m == 0)
    ensures Concat(bs)[..c] == Concat(bs[..i]) + (if i < |bs| then bs[i].bytes[..m] else [])
    ensures c == |Concat(bs)| ==> i == |bs|
  {
    if c == |Concat(bs)| {
      i, m := |bs|, 0;
      assert bs[..i] == bs;
    } else {
      var n := |bs| - 1;
      assert bs == bs[..n] + [bs[n]];
      ConcatJoin(bs[..n], [bs[n]]);
      ConcatOne(bs[n]);
      var a := Concat(bs[..n]);
      if c < |a| {
        i, m := CutBytes(bs[..n], c);
        assert bs[..n][..i] == bs[..i];
      } else {
        i, m := n, c - |a|;
      }
    }
  }

  /** Wherever a file of whole batches is cut, what is left is some of the batches and an
      unreadable tail. */
  lemma CutAnywhere(bs: seq<Batch>, c: nat) returns (i: nat, tail: seq<byte>)
    requires Sound(bs) && c <= |Concat(bs)|
    ensures i <= |bs| && Unreadable(tail) && Concat(bs)[..c] == Concat(bs[..i]) + tail
    ensures c == |Concat(bs)| ==> i == |bs|
  {
    var m;
    i, m := CutBytes(bs, c);
    tail := [];
    if i < |bs| {
      tail := bs[i].bytes[..m];
      PrefixUnreadable(bs[i], m);
    }
  }

  // ---------------------------------------------------------------- operations

  /** SetBaseOffset: patches the base offset field in place. */
  method SetBaseOffset(b: array<byte>, off: int)
    requires b.Length >= 8
    modifies b
    ensures b[..] == PutInt(off, 8) + old(b[8..])
  {
    var field := PutInt(off, 8);
    for i := 0 to 8
      invariant b[..i] == field[..i]
      invariant b[8..] == old(b[8..])
    {
      b[i] := field[i];
    }
    assert b[..] == b[..8] + b[8..];
  }

  /** RecomputeCRC: writes the checksum of everything from the attributes field onward. */
  method RecomputeCRC(b: array<byte>, crc: seq<byte> -> nat)
    requires b.Length >= 21
    modifies b
    ensures b[..] == old(b[..17]) + BigEndian(crc(old(b[21..])), 4) + old(b[21..])
  {
    var field := BigEndian(crc(b[21..]), 4);
    for i := 0 to 4
      invariant b[17..17 + i] == field[..i]
      invariant b[..17] == old(b[..17]) && b[21..] == old(b[21..])
    {
      b[17 + i] := field[i];
    }
    assert b[..] == b[..17] + b[17..21] + b[21..];
  }

  /** The bytes of a batch once the broker has given it offset off. */
  function Assigned(s: seq<byte>, off: int, crc: seq<byte> -> nat): (t: seq<byte>)
    requires |s| >= 21
    ensures |t| == |s|
  {
    PutInt(off, 8) + s[8..17] + BigEndian(crc(s[21..]), 4) + s[21..]
  }

  /** The two in-place patches together. */
  lemma PatchedIsAssigned(s: seq<byte>, off: int, crc: seq<byte> -> nat)
    requires |s| >= 21
    ensures var t := PutInt(off, 8) + s[8..];
            t[..17] + BigEndian(crc(t[21..]), 4) + t[21..] == Assigned(s, off, crc)
  {
    var t := PutInt(off, 8) + s[8..];
    assert t[21..] == s[21..];
    assert t[..17] == PutInt(off, 8) + s[8..17];
  }

  /** SetBaseOffset then RecomputeCRC, as every append does. */
  method AssignOffset(b: array<byte>, off: int, crc: seq<byte> -> nat)
    requires b.Length >= 21
    modifies b
    ensures b[..] == Assigned(old(b[..]), off, crc)
  {
    PatchedIsAssigned(b[..], off, crc);
    SetBaseOffset(b, off);
    RecomputeCRC(b, crc);
  }

  lemma AssignedKeeps(s: seq<byte>, off: int, crc: seq<byte> -> nat, i: nat, j: nat)
    requires |s| >= 21 && i <= j <= |s| && ((8 <= i && j <= 17) || 21 <= i)
    ensures Assigned(s, off, crc)[i..j] == s[i..j]
  {
    var a, b := PutInt(off, 8) + s[8..17], BigEndian(crc(s[21..]), 4);
    if 21 <= i {
      SliceRight(a + b, s[21..], i, j);
    } else {
      SliceLeft(a + b, s[21..], i, j);
      SliceLeft(a, b, i, j);
      SliceRight(PutInt(off, 8), s[8..17], i, j);
      SliceSlice(s, 8, 17, i - 8, j - 8);
    }
  }

  /** Assigning an offset changes the base offset and the checksum and nothing else: size,
      record count and timestamps stay, so the batch now covers [off, off + count). */
  lemma AssignedIsBatch(s: seq<byte>, off: int, crc: seq<byte> -> nat)
    requires |s| >= HEADER_SIZE && FitsInt(off, 8)
    ensures var t := Assigned(s, off, crc);
            && (ParseHeader(t).Ok? <==> ParseHeader(s).Ok?)
            && (ParseHeader(t).Ok? ==>
                  ParseHeader(t).header == ParseHeader(s).header.(baseOffset := off))
            && (IsBatch(s) ==> IsBatch(t) && ToBatch(t).base == off
                               && ToBatch(t).next == off + ParseHeader(s).header.recordCount
                               && ToBatch(t).maxTs == ToBatch(s).maxTs)
  {
    var t := Assigned(s, off, crc);
    IntOfPutInt(off, 8);
    assert t[0..8] == PutInt(off, 8);
    AssignedKeeps(s, off, crc, 8, 12);
    AssignedKeeps(s, off, crc, 16, 17);
    AssignedKeeps(s, off, crc, 23, 27);
    AssignedKeeps(s, off, crc, 27, 35);
    AssignedKeeps(s, off, crc, 35, 43);
    AssignedKeeps(s, off, crc, 57, 61);
  }

  /** One step of a scan over stored bytes: at the position of a batch the parser announces
      exactly that batch, and at the tail it announces something that is not all there. */
  lemma ScanStep(data: seq<byte>, bs: seq<Batch>, tail: seq<byte>, n: nat, pos: nat)
    requires Sound(bs) && Unreadable(tail) && data == Concat(bs) + tail
    requires n <= |bs| && pos == PosOf(bs, n) < |data|
    ensures var p := ParseHeader(data[pos..]);
            if n < |bs| then
              && p.Ok? && p.header.TotalSize() == |bs[n].bytes| >= HEADER_SIZE
              && p.header.baseOffset == bs[n].base && p.header.LastOffset() + 1 == bs[n].next
              && p.header.maxTimestamp == bs[n].maxTs
              && pos + |bs[n].bytes| == PosOf(bs, n + 1) <= |data|
              && data[pos..pos + |bs[n].bytes|] == bs[n].bytes
            else
              tail != [] && (!p.Ok? || pos + p.header.TotalSize() > |data|)
  {
    if n < |bs| {
      BatchAt(bs, n, tail);
      HeaderAt(bs, n, tail);
    } else {
      PosEnds(bs);
      assert data[pos..] == tail;
    }
  }

  /** The header at the start of s can be read, and everything it announces is there. */
  predicate StartsWhole(s: seq<byte>)
  {
    var p := ParseHeader(s);
    p.Ok? && p.header.TotalSize() <= |s|
  }

  function Announced(s: seq<byte>): int
    requires StartsWhole(s)
  {
    ParseHeader(s).header.TotalSize()
  }

  /** Every header met on the way announces a batch of at least one byte. */
  predicate Walkable(s: seq<byte>)
    decreases |s|
  {
    StartsWhole(s) ==> 0 < Announced(s) && Walkable(s[Announced(s)..])
  }

  datatype Walked = Walked(visited: seq<seq<byte>>, consumed: nat, ok: bool)

  /** A walk over a record set: the slices it visits, the bytes they take, and whether it got to
      the end. It stops where no header can be read or one announces more than there is. */
  function Walk(s: seq<byte>): Walked
    requires Walkable(s)
    decreases |s|
  {
    if StartsWhole(s) then Onto([s[..Announced(s)]], Announced(s), Walk(s[Announced(s)..]))
    else Walked([], 0, s == [])
  }

  /** The walk w behind what was visited before. */
  function Onto(visited: seq<seq<byte>>, consumed: nat, w: Walked): Walked
  {
    Walked(visited + w.visited, consumed + w.consumed, w.ok)
  }

  lemma WalkFirst(s: seq<byte>)
    requires Walkable(s) && StartsWhole(s)
    ensures var n := Announced(s);
            0 < n <= |s| && Walkable(s[n..]) && Walk(s) == Onto([s[..n]], n, Walk(s[n..]))
  {
  }

  lemma WalkOn(s: seq<byte>, rest: seq<byte>, visited: seq<seq<byte>>, consumed: nat)
    requires Walkable(s) && Walkable(rest) && Walk(s) == Onto(visited, consumed, Walk(rest)) && StartsWhole(rest)
    ensures var n := Announced(rest);
            && 0 < n <= |rest| && Walkable(rest[n..])
            && Walk(s) == Onto(visited + [rest[..n]], consumed + n, Walk(rest[n..]))
  {
    WalkFirst(rest);
    var n := Announced(rest);
    Associative(visited, [rest[..n]], Walk(rest[n..]).visited);
  }

  /** Iterate: walks a record set batch by batch and stops at the first malformed or truncated
      one. */
  method Iterate(set_: seq<byte>) returns (visited: seq<seq<byte>>, consumed: nat, ok: bool)
    requires Walkable(set_)
    ensures Walked(visited, consumed, ok) == Walk(set_)
  {
    visited, consumed := [], 0;
    assert set_[0..] == set_ && [] + Walk(set_).visited == Walk(set_).visited;
    while consumed < |set_|
      invariant consumed <= |set_| && Walkable(set_[consumed..])
      invariant Walk(set_) == Onto(visited, consumed, Walk(set_[consumed..]))
      decreases |set_| - consumed
    {
      var p := ParseHeader(set_[consumed..]);
      if !p.Ok? {
        assert visited + [] == visited;
        return visited, consumed, false;
      }
      var size := p.header.TotalSize();
      if consumed + size > |set_| {
        assert visited + [] == visited;
        return visited, consumed, false;
      }
      WalkOn(set_, set_[consumed..], visited, consumed);
      DropDrop(set_, consumed, size);
      visited := visited + [set_[consumed..consumed + size]];
      consumed := consumed + size;
    }
    assert set_[consumed..] == [] && visited + [] == visited;
    ok := true;
  }

  /** On a run of batches followed by an unreadable tail it visits exactly the whole batches, in
      order, and reports an error just when a tail was there. */
  lemma {:induction false} WalkBatches(bs: seq<Batch>, tail: seq<byte>)
    requires Sound(bs) && Unreadable(tail)
    ensures Walkable(Concat(bs) + tail)
    ensures var w := Walk(Concat(bs) + tail);
            && |w.visited| == |bs| && (forall i | 0 <= i < |bs| :: w.visited[i] == bs[i].bytes)
            && w.consumed == |Concat(bs)| && (w.ok <==> tail == [])
  {
    var data := Concat(bs) + tail;
    if bs == [] {
      assert data == tail;
    } else {
      FirstWhole(bs, tail);
      WalkBatches(bs[1..], tail);
    }
  }

  lemma FirstWhole(bs: seq<Batch>, tail: seq<byte>)
    requires Sound(bs) && bs != []
    ensures var data := Concat(bs) + tail;
            && StartsWhole(data) && Announced(data) == |bs[0].bytes| > 0
            && data[..|bs[0].bytes|] == bs[0].bytes && data[|bs[0].bytes|..] == Concat(bs[1..]) + tail
  {
    Associative(bs[0].bytes, Concat(bs[1..]), tail);
    TwoParts(bs[0].bytes, Concat(bs[1..]) + tail);
    assert WellFormed(bs[0]);
    HeaderOf(bs[0], Concat(bs) + tail);
  }
}
