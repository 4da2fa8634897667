/** The node's write-ahead log: frames of records from all partitions, in numbered segment
    files. Records live here until the object that holds them is durable. */
module Wal {
  import opened Bytes
  import opened Seqs

  const MAGIC: byte := 0xA7

  datatype PartKey = PartKey(topic: seq<byte>, partition: int)
  datatype WalRecord = WalRecord(key: PartKey, base: int, batch: seq<byte>)

  /** encodeWALPayload: topicLen(2) | topic | partition(4) | baseOffset(8) | batch. */
  function EncodePayload(r: WalRecord): (p: seq<byte>)
    ensures |p| == 14 + |r.key.topic| + |r.batch|
  {
    BigEndian(|r.key.topic|, 2) + r.key.topic + PutInt(r.key.partition, 4) + PutInt(r.base, 8) + r.batch
  }

  datatype Decoded = Record(r: WalRecord) | Malformed

  function DecodePayload(b: seq<byte>): (d: Decoded)
  {
    if |b| < 2 then Malformed
    else
      var tl := Uint(b[0..2]);
      if 2 + tl + 12 > |b| then Malformed
      else
        Record(WalRecord(PartKey(b[2..2 + tl], Int(b[2 + tl..6 + tl])), Int(b[6 + tl..14 + tl]), b[14 + tl..]))
  }

  /** What the length fields of a frame can hold. */
  predicate Encodable(r: WalRecord)
  {
    && |r.key.topic| < Radix(2) && FitsInt(r.key.partition, 4) && FitsInt(r.base, 8)
    && |EncodePayload(r)| < Radix(4)
  }

  lemma FiveFields<T>(a: seq<T>, b: seq<T>, c: seq<T>, d: seq<T>, e: seq<T>)
    ensures var s := a + b + c + d + e;
            var i, j, k := |a| + |b|, |a| + |b| + |c|, |a| + |b| + |c| + |d|;
            && s[0..|a|] == a && s[|a|..i] == b && s[i..j] == c && s[j..k] == d && s[k..] == e
  {
  }

  lemma SmallMod(v: nat, m: nat)
    requires v < m
    ensures v % m == v
  {
  }

  /** A record survives encoding. */
  lemma PayloadRoundTrip(r: WalRecord)
    requires Encodable(r)
    ensures DecodePayload(EncodePayload(r)) == Record(r)
  {
    var n := |r.key.topic|;
    FiveFields(BigEndian(n, 2), r.key.topic, PutInt(r.key.partition, 4), PutInt(r.base, 8), r.batch);
    UintOfBigEndian(n, 2);
    SmallMod(n, Radix(2));
    IntOfPutInt(r.key.partition, 4);
    IntOfPutInt(r.base, 8);
  }

  /** One frame: magic, checksum of the payload, payload length, payload. The checksum is any
      function of the payload, cut to 32 bits. */
  function Frame(r: WalRecord, crc: seq<byte> -> nat): (f: seq<byte>)
    ensures |f| == 9 + |EncodePayload(r)| && f[0] == MAGIC
  {
    var p := EncodePayload(r);
    [MAGIC] + BigEndian(crc(p), 4) + BigEndian(|p|, 4) + p
  }

  function Frames(rs: seq<WalRecord>, crc: seq<byte> -> nat): seq<byte>
  {
    if rs == [] then [] else Frame(rs[0], crc) + Frames(rs[1..], crc)
  }

  predicate AllEncodable(rs: seq<WalRecord>)
  {
    forall i {:trigger Encodable(rs[i])} | 0 <= i < |rs| :: Encodable(rs[i])
  }

  lemma FrameFields(r: WalRecord, crc: seq<byte> -> nat, data: seq<byte>)
    requires Encodable(r) && |Frame(r, crc)| <= |data| && data[..|Frame(r, crc)|] == Frame(r, crc)
    ensures var p := EncodePayload(r);
            && data[0] == MAGIC && Uint(data[1..5]) == crc(p) % Radix(4)
            && Uint(data[5..9]) == |p| && data[9..9 + |p|] == p
  {
    var f, p := Frame(r, crc), EncodePayload(r);
    HeaderFields(r, crc);
    SliceSlice(data, 0, |f|, 1, 5);
    SliceSlice(data, 0, |f|, 5, 9);
    SliceSlice(data, 0, |f|, 9, 9 + |p|);
  }

  lemma HeaderFields(r: WalRecord, crc: seq<byte> -> nat)
    requires Encodable(r)
    ensures var f, p := Frame(r, crc), EncodePayload(r);
            Uint(f[1..5]) == crc(p) % Radix(4) && Uint(f[5..9]) == |p| && f[9..9 + |p|] == p
  {
    var p := EncodePayload(r);
    FiveFields([MAGIC], BigEndian(crc(p), 4), BigEndian(|p|, 4), p, []);
    var f := Frame(r, crc);
    assert f + [] == f;
    UintOfBigEndian(crc(p), 4);
    UintOfBigEndian(|p|, 4);
    SmallMod(|p|, Radix(4));
  }

  datatype Step = Whole(r: WalRecord, size: nat) | Stop | Corrupt

  /** One turn of replaySegment's loop on the bytes that are left. */
  function NextFrame(data: seq<byte>, crc: seq<byte> -> nat): Step
    requires data != []
  {
    if data[0] != MAGIC then Stop
    else if 9 > |data| then Stop
    else
      var n := Uint(data[5..9]);
      if 9 + n > |data| then Stop
      else if crc(data[9..9 + n]) % Radix(4) != Uint(data[1..5]) then Stop
      else
        var d := DecodePayload(data[9..9 + n]);
        if d.Malformed? then Corrupt else Whole(d.r, 9 + n)
  }

  lemma NextIsFrame(r: WalRecord, crc: seq<byte> -> nat, data: seq<byte>)
    requires Encodable(r) && |Frame(r, crc)| <= |data| && data[..|Frame(r, crc)|] == Frame(r, crc)
    ensures NextFrame(data, crc) == Whole(r, |Frame(r, crc)|)
  {
    FrameFields(r, crc, data);
    PayloadRoundTrip(r);
  }

  /** What one turn does with any bytes, in terms of the frame's fields: it goes on if and only if the
      magic byte is there, everything announced is there and has the checksum announced, and stops
      quietly in every other case; a payload that has its checksum and cannot be decoded is an error. */
  lemma NextFrameIs(data: seq<byte>, crc: seq<byte> -> nat)
    requires data != []
    ensures var whole := data[0] == MAGIC && |data| >= 9 && 9 + Uint(data[5..9]) <= |data|;
            && (NextFrame(data, crc) == Stop <==>
                  !whole || crc(data[9..9 + Uint(data[5..9])]) % 0x1_0000_0000 != Uint(data[1..5]))
            && (NextFrame(data, crc).Whole? ==>
                  whole && NextFrame(data, crc).size == 9 + Uint(data[5..9])
                  && DecodePayload(data[9..9 + Uint(data[5..9])]) == Record(NextFrame(data, crc).r))
  {
    RadixValues();
  }

  /** Bytes at which replay stops: no frame, part of one, or one whose checksum is wrong. */
  predicate Stops(t: seq<byte>, crc: seq<byte> -> nat)
  {
    t == [] || NextFrame(t, crc) == Stop
  }

  /** A frame that was written in part stops it. */
  lemma PrefixStops(r: WalRecord, crc: seq<byte> -> nat, m: nat)
    requires Encodable(r) && m < |Frame(r, crc)|
    ensures Stops(Frame(r, crc)[..m], crc)
  {
    if m >= 9 {
      HeaderFields(r, crc);
      SliceSlice(Frame(r, crc), 0, m, 5, 9);
    }
  }

  lemma {:induction false} FramesJoin(rs: seq<WalRecord>, qs: seq<WalRecord>, crc: seq<byte> -> nat)
    ensures Frames(rs + qs, crc) == Frames(rs, crc) + Frames(qs, crc)
  {
    if rs == [] {
      assert rs + qs == qs;
    } else {
      FramesJoin(rs[1..], qs, crc);
      assert (rs + qs)[1..] == rs[1..] + qs;
      Associative(Frame(rs[0], crc), Frames(rs[1..], crc), Frames(qs, crc));
    }
  }

  lemma FramesOne(r: WalRecord, crc: seq<byte> -> nat)
    ensures Frames([r], crc) == Frame(r, crc)
  {
    assert [r][1..] == [];
  }

  lemma CutLeft(a: seq<byte>, b: seq<byte>, c: nat)
    requires c <= |a|
    ensures (a + b)[..c] == a[..c]
  {
  }

  lemma CutRight(a: seq<byte>, b: seq<byte>, c: nat)
    requires |a| <= c <= |a| + |b|
    ensures (a + b)[..c] == a + b[..c - |a|]
  {
  }

  /** Wherever a segment file is cut, what is left is some of its records and a tail replay
      stops at. */
  lemma {:induction false} CutFrames(rs: seq<WalRecord>, crc: seq<byte> -> nat, c: nat)
      returns (i: nat, tail: seq<byte>)
    requires AllEncodable(rs) && c <= |Frames(rs, crc)|
    ensures i <= |rs| && Stops(tail, crc) && Frames(rs, crc)[..c] == Frames(rs[..i], crc) + tail
  {
    if c == |Frames(rs, crc)| {
      i, tail := |rs|, [];
      assert rs[..i] == rs;
    } else {
      var n := |rs| - 1;
      assert rs == rs[..n] + [rs[n]];
      FramesJoin(rs[..n], [rs[n]], crc);
      FramesOne(rs[n], crc);
      var a := Frames(rs[..n], crc);
      if c < |a| {
        i, tail := CutFrames(rs[..n], crc, c);
        assert rs[..n][..i] == rs[..i];
        CutLeft(a, Frame(rs[n], crc), c);
      } else {
        i, tail := n, Frame(rs[n], crc)[..c - |a|];
        assert Encodable(rs[n]);
        PrefixStops(rs[n], crc, c - |a|);
        CutRight(a, Frame(rs[n], crc), c);
      }
    }
  }

  /** What replay makes of any bytes: the records it hands on, and whether it ends without an
      error. */
  function Replayed(data: seq<byte>, crc: seq<byte> -> nat): (seq<WalRecord>, bool)
    decreases |data|
  {
    if data == [] then ([], true)
    else
      match NextFrame(data, crc)
      case Stop => ([], true)
      case Corrupt => ([], false)
      case Whole(r, size) =>
        var (rest, ok) := Replayed(data[size..], crc);
        ([r] + rest, ok)
  }

  /** From any run of frames and whatever tail a crash left behind it, replay recovers exactly
      the run. */
  lemma {:induction false} ReplayedFrames(rs: seq<WalRecord>, tail: seq<byte>, crc: seq<byte> -> nat)
    requires AllEncodable(rs) && Stops(tail, crc)
    ensures Replayed(Frames(rs, crc) + tail, crc).0 == rs && Replayed(Frames(rs, crc) + tail, crc).1
    decreases |rs|
  {
    if rs == [] {
      assert Frames(rs, crc) + tail == tail;
    } else {
      assert Encodable(rs[0]);
      ReplayStep(Frames(rs, crc) + tail, rs, crc, tail);
      assert AllEncodable(rs[1..]) by {
        forall i | 0 <= i < |rs[1..]| ensures Encodable(rs[1..][i]) {
          assert Encodable(rs[i + 1]);
        }
      }
      ReplayedFrames(rs[1..], tail, crc);
      assert [rs[0]] + rs[1..] == rs;
    }
  }

  /** replaySegment. */
  method ReplaySegment(data: seq<byte>, crc: seq<byte> -> nat) returns (out: seq<WalRecord>, ok: bool)
    ensures out == Replayed(data, crc).0 && ok == Replayed(data, crc).1
  {
    out, ok := [], true;
    var pos := 0;
    ReplayingStarts(data, crc);
    while pos < |data|
      invariant pos <= |data| && Replaying(data, pos, out, crc)
      decreases |data| - pos
    {
      var more;
      more, ok, out, pos := ReplayFrame(data, pos, crc, out);
      if !more {
        return;
      }
    }
    ReplayingEnds(data, pos, out, crc);
    ok := true;
  }

  /** One turn of the loop. */
  method ReplayFrame(data: seq<byte>, pos: nat, crc: seq<byte> -> nat, had: seq<WalRecord>)
      returns (more: bool, ok: bool, out: seq<WalRecord>, next: nat)
    requires pos < |data| && Replaying(data, pos, had, crc)
    ensures more ==> pos < next <= |data| && Replaying(data, next, out, crc)
    ensures !more ==> out == Replayed(data, crc).0 && ok == Replayed(data, crc).1
  {
    out, next := had, pos;
    var step := NextFrame(data[pos..], crc);
    more, ok := step.Whole?, step != Corrupt;
    if more {
      ReplayingNext(data, pos, had, crc, step.r, step.size);
      out, next := had + [step.r], pos + step.size;
    } else {
      ReplayingEnds(data, pos, had, crc);
    }
  }

  /** out has been handed on when the scan stands at pos. */
  ghost predicate Replaying(data: seq<byte>, pos: nat, out: seq<WalRecord>, crc: seq<byte> -> nat)
    requires pos <= |data|
  {
    Replayed(data, crc) == Then(out, Replayed(data[pos..], crc))
  }

  function Then(out: seq<WalRecord>, more: (seq<WalRecord>, bool)): (seq<WalRecord>, bool)
  {
    (out + more.0, more.1)
  }

  lemma {:induction false} ReplayingStarts(data: seq<byte>, crc: seq<byte> -> nat)
    ensures Replaying(data, 0, [], crc)
  {
    assert data[0..] == data;
    var r := Replayed(data, crc);
    assert [] + r.0 == r.0;
  }

  lemma {:induction false} ReplayingEnds(data: seq<byte>, pos: nat, out: seq<WalRecord>, crc: seq<byte> -> nat)
    requires pos <= |data| && Replaying(data, pos, out, crc)
    requires pos < |data| ==> !NextFrame(data[pos..], crc).Whole?
    ensures out == Replayed(data, crc).0
    ensures Replayed(data, crc).1 == (pos == |data| || NextFrame(data[pos..], crc) == Stop)
  {
    assert pos == |data| ==> data[pos..] == [];
    assert out + [] == out;
  }

  lemma {:induction false} ReplayingNext(data: seq<byte>, pos: nat, out: seq<WalRecord>, crc: seq<byte> -> nat,
                                         r: WalRecord, size: nat)
    requires pos < |data| && Replaying(data, pos, out, crc) && NextFrame(data[pos..], crc) == Whole(r, size)
    ensures size > 0 && pos + size <= |data| && Replaying(data, pos + size, out + [r], crc)
  {
    assert data[pos..][size..] == data[pos + size..];
    Associative(out, [r], Replayed(data[pos + size..], crc).0);
  }

  lemma ReplayStep(data: seq<byte>, rs: seq<WalRecord>, crc: seq<byte> -> nat, tail: seq<byte>)
    requires rs != [] && Encodable(rs[0]) && data == Frames(rs, crc) + tail
    ensures var n := |Frame(rs[0], crc)|;
            && n <= |data| && NextFrame(data, crc) == Whole(rs[0], n)
            && data[n..] == Frames(rs[1..], crc) + tail
  {
    var f := Frame(rs[0], crc);
    Associative(f, Frames(rs[1..], crc), tail);
    assert data == f + (Frames(rs[1..], crc) + tail);
    NextIsFrame(rs[0], crc, data);
  }
}
