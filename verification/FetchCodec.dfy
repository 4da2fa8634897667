/** The wire format of a fetch: the byte reader and writer, the request a follower sends and the
    response it gets back (Kafka protocol, Fetch, with request header v1 and response header v0).

    Encodings take what follows them as an argument, so that a reader's position is described by
    the bytes it has yet to read. */
module FetchCodec {
  import opened Bytes
  import opened Seqs

  datatype Maybe = None | Some(bytes: seq<byte>)

  /** The reader stands before these bytes, without an error. */
  predicate Before(buf: seq<byte>, pos: nat, err: bool, rest: seq<byte>)
  {
    !err && pos <= |buf| && buf[pos..] == rest
  }

  function PutString(s: seq<byte>, rest: seq<byte>): seq<byte>
  {
    PutInt(|s|, 2) + (s + rest)
  }

  function PutNullable(s: Maybe, rest: seq<byte>): seq<byte>
  {
    if s == None then PutInt(-1, 2) + rest else PutString(s.bytes, rest)
  }

  function PutBytes(b: Maybe, rest: seq<byte>): seq<byte>
  {
    if b == None then PutInt(-1, 4) + rest else PutInt(|b.bytes|, 4) + (b.bytes + rest)
  }

  /** A field some versions leave out. */
  function PutIf(has: bool, v: int, n: nat, rest: seq<byte>): seq<byte>
  {
    if has then PutInt(v, n) + rest else rest
  }

  // ---------------------------------------------------------------- reader

  /** A length-prefixed field as it stands in any bytes: not all there, null, or its contents. */
  datatype Field = Short | Null | Got(bytes: seq<byte>)

  /** The field at pos, its length w bytes wide; where reading it ends, and whether with an error. */
  function FieldAt(buf: seq<byte>, pos: nat, err: bool, w: nat): (Field, nat, bool)
  {
    if err || pos + w > |buf| then (Short, pos, true)
    else
      var n := Int(buf[pos..pos + w]);
      if n < 0 then (Null, pos + w, false)
      else if pos + w + n > |buf| then (Short, pos + w, true)
      else (Got(buf[pos + w..pos + w + n]), pos + w + n, false)
  }

  /** kbytes.Reader: once a read fails every later one yields zero and moves nothing. */
  class Reader {
    const buf: seq<byte>
    var pos: nat
    var err: bool

    predicate Valid()
      reads this
    {
      pos <= |buf|
    }

    constructor (buf: seq<byte>)
      ensures Valid() && this.buf == buf && pos == 0 && !err
    {
      this.buf, pos, err := buf, 0, false;
    }

    method Take(n: int) returns (b: Maybe)
      requires Valid()
      modifies this
      ensures Valid()
      ensures if old(err) || n < 0 || old(pos) + n > |buf| then b == None && err && pos == old(pos)
              else !err && b == Some(buf[old(pos)..old(pos) + n]) && pos == old(pos) + n
    {
      if err {
        return None;
      }
      if n < 0 || pos + n > |buf| {
        err := true;
        return None;
      }
      b := Some(buf[pos..pos + n]);
      pos := pos + n;
    }

    /** Int8, Int16, Int32 and Int64, n being the width in bytes. */
    method ReadInt(n: nat, ghost ok: bool, ghost v: int, ghost rest: seq<byte>) returns (x: int)
      requires Valid() && (ok ==> FitsInt(v, n) && Before(buf, pos, err, PutInt(v, n) + rest))
      modifies this
      ensures Valid() && (ok ==> x == v && Before(buf, pos, err, rest))
      ensures if old(err) || old(pos) + n > |buf| then x == 0 && err && pos == old(pos)
              else !err && x == Int(buf[old(pos)..old(pos) + n]) && pos == old(pos) + n
    {
      if ok {
        Front(buf, pos, PutInt(v, n), rest);
        IntOfPutInt(v, n);
      }
      var b := Take(n);
      x := if b == None then 0 else Int(b.bytes);
    }

    method ReadString(ghost ok: bool, ghost s: seq<byte>, ghost rest: seq<byte>) returns (x: seq<byte>)
      requires Valid() && (ok ==> FitsInt(|s|, 2) && Before(buf, pos, err, PutString(s, rest)))
      modifies this
      ensures Valid() && (ok ==> x == s && Before(buf, pos, err, rest))
      ensures var (f, end, bad) := FieldAt(buf, old(pos), old(err), 2);
              x == (if f.Got? then f.bytes else []) && pos == end && err == bad
    {
      var n := ReadInt(2, ok, |s|, s + rest);
      if n < 0 {
        return [];
      }
      if ok {
        Front(buf, pos, s, rest);
      }
      var b := Take(n);
      x := if b == None then [] else b.bytes;
    }

    method ReadNullable(ghost ok: bool, ghost s: Maybe, ghost rest: seq<byte>) returns (x: Maybe)
      requires Valid() && (ok ==> (s == None || FitsInt(|s.bytes|, 2)) && Before(buf, pos, err, PutNullable(s, rest)))
      modifies this
      ensures Valid() && (ok ==> x == s && Before(buf, pos, err, rest))
      ensures var (f, end, bad) := FieldAt(buf, old(pos), old(err), 2);
              x == (if f.Null? then None else Some(if f.Got? then f.bytes else [])) && pos == end && err == bad
    {
      var n := ReadInt(2, ok, if s == None then -1 else |s.bytes|, if s == None then rest else s.bytes + rest);
      if n < 0 {
        return None;
      }
      if ok {
        Front(buf, pos, s.bytes, rest);
      }
      var b := Take(n);
      if b == None {
        return Some([]);
      }
      x := b;
    }

    method ReadBytes(ghost ok: bool, ghost s: Maybe, ghost rest: seq<byte>) returns (x: Maybe)
      requires Valid() && (ok ==> (s == None || FitsInt(|s.bytes|, 4)) && Before(buf, pos, err, PutBytes(s, rest)))
      modifies this
      ensures Valid() && (ok ==> x == s && Before(buf, pos, err, rest))
      ensures var (f, end, bad) := FieldAt(buf, old(pos), old(err), 4);
              x == (if f.Got? then Some(f.bytes) else None) && pos == end && err == bad
    {
      var n := ReadInt(4, ok, if s == None then -1 else |s.bytes|, if s == None then rest else s.bytes + rest);
      if n < 0 {
        return None;
      }
      if ok {
        Front(buf, pos, s.bytes, rest);
      }
      x := Take(n);
    }

    /** A length no greater than the number of bytes left; a null array counts as empty. */
    method ReadArrayLen(ghost ok: bool, ghost v: int, ghost rest: seq<byte>) returns (n: nat)
      requires Valid() && (ok ==> 0 <= v <= |rest| && FitsInt(v, 4) && Before(buf, pos, err, PutInt(v, 4) + rest))
      modifies this
      ensures Valid() && (ok ==> n == v && Before(buf, pos, err, rest))
      ensures var short := old(err) || old(pos) + 4 > |buf|;
              var v := if short then 0 else Int(buf[old(pos)..old(pos) + 4]);
              && pos == (if short then old(pos) else old(pos) + 4) && err == (short || v > |buf| - pos)
              && n == if err || v < 0 then 0 else v
    {
      var x := ReadInt(4, ok, v, rest);
      if x < 0 {
        return 0;
      }
      if x > |buf| - pos {
        err := true;
        return 0;
      }
      n := x;
    }
  }

  // ---------------------------------------------------------------- writer

  class Writer {
    var buf: seq<byte>

    constructor ()
      ensures buf == []
    {
      buf := [];
    }

    method WriteInt(v: int, n: nat, ghost rest: seq<byte>)
      modifies this
      ensures buf + rest == old(buf) + (PutInt(v, n) + rest)
    {
      Associative(buf, PutInt(v, n), rest);
      buf := buf + PutInt(v, n);
    }

    method WriteRaw(s: seq<byte>, ghost rest: seq<byte>)
      modifies this
      ensures buf + rest == old(buf) + (s + rest)
    {
      Associative(buf, s, rest);
      buf := buf + s;
    }

    method WriteString(s: seq<byte>, ghost rest: seq<byte>)
      modifies this
      ensures buf + rest == old(buf) + PutString(s, rest)
    {
      WriteInt(|s|, 2, s + rest);
      WriteRaw(s, rest);
    }

    method WriteNullable(s: Maybe, ghost rest: seq<byte>)
      modifies this
      ensures buf + rest == old(buf) + PutNullable(s, rest)
    {
      if s == None {
        WriteInt(-1, 2, rest);
      } else {
        WriteString(s.bytes, rest);
      }
    }

    method WriteBytes(b: Maybe, ghost rest: seq<byte>)
      modifies this
      ensures buf + rest == old(buf) + PutBytes(b, rest)
    {
      if b == None {
        WriteInt(-1, 4, rest);
      } else {
        WriteInt(|b.bytes|, 4, b.bytes + rest);
        WriteRaw(b.bytes, rest);
      }
    }
  }

  // ---------------------------------------------------------------- the request

  datatype FetchPartition = FetchPartition(partition: int, fetchOffset: int, logStart: int, maxBytes: int)
  datatype FetchTopic = FetchTopic(name: seq<byte>, partitions: seq<FetchPartition>)
  datatype FetchRequest = FetchRequest(replicaId: int, maxWaitMs: int, minBytes: int, maxBytes: int, isolation: int,
                                       sessionId: int, sessionEpoch: int, topics: seq<FetchTopic>)

  /** One partition on the wire; leaderEpoch is a field the decoder reads and drops. */
  function PutPartition(p: FetchPartition, version: int, leaderEpoch: int, rest: seq<byte>): seq<byte>
  {
    PutInt(p.partition, 4)
    + PutIf(version >= 9, leaderEpoch, 4,
            PutInt(p.fetchOffset, 8) + PutIf(version >= 5, p.logStart, 8, PutInt(p.maxBytes, 4) + rest))
  }

  function PutPartitions(ps: seq<FetchPartition>, version: int, epoch: int, rest: seq<byte>): seq<byte>
  {
    if ps == [] then rest else PutPartition(ps[0], version, epoch, PutPartitions(ps[1..], version, epoch, rest))
  }

  function PutTopic(t: FetchTopic, version: int, epoch: int, rest: seq<byte>): seq<byte>
  {
    PutString(t.name, PutInt(|t.partitions|, 4) + PutPartitions(t.partitions, version, epoch, rest))
  }

  function PutTopics(ts: seq<FetchTopic>, version: int, epoch: int, rest: seq<byte>): seq<byte>
  {
    if ts == [] then rest else PutTopic(ts[0], version, epoch, PutTopics(ts[1..], version, epoch, rest))
  }

  function PutRequest(q: FetchRequest, version: int, epoch: int, rest: seq<byte>): seq<byte>
  {
    PutInt(q.replicaId, 4)
    + (PutInt(q.maxWaitMs, 4)
       + (PutInt(q.minBytes, 4)
          + PutIf(version >= 3, q.maxBytes, 4,
                  PutIf(version >= 4, q.isolation, 1,
                        PutIf(version >= 7, q.sessionId, 4,
                              PutIf(version >= 7, q.sessionEpoch, 4,
                                    PutInt(|q.topics|, 4) + PutTopics(q.topics, version, epoch, rest)))))))
  }

  /** The partition can be carried by this version: fields fit, and those it lacks are zero. */
  predicate PartitionFits(p: FetchPartition, version: int)
  {
    && FitsInt(p.partition, 4) && FitsInt(p.fetchOffset, 8) && FitsInt(p.logStart, 8) && FitsInt(p.maxBytes, 4)
    && (version < 5 ==> p.logStart == 0)
  }

  predicate TopicFits(t: FetchTopic, version: int)
  {
    FitsInt(|t.name|, 2) && FitsInt(|t.partitions|, 4) && PartitionsFit(t.partitions, version)
  }

  predicate RequestFits(q: FetchRequest, version: int)
  {
    && FitsInt(q.replicaId, 4) && FitsInt(q.maxWaitMs, 4) && FitsInt(q.minBytes, 4) && FitsInt(q.maxBytes, 4)
    && FitsInt(q.isolation, 1) && FitsInt(q.sessionId, 4) && FitsInt(q.sessionEpoch, 4) && FitsInt(|q.topics|, 4)
    && (version < 3 ==> q.maxBytes == 0) && (version < 4 ==> q.isolation == 0)
    && (version < 7 ==> q.sessionId == 0 && q.sessionEpoch == 0)
    && TopicsFit(q.topics, version)
  }

  predicate TopicsFit(ts: seq<FetchTopic>, version: int)
  {
    forall i {:trigger TopicFits(ts[i], version)} | 0 <= i < |ts| :: TopicFits(ts[i], version)
  }

  lemma {:induction false} PartitionsSize(ps: seq<FetchPartition>, version: int, epoch: int, rest: seq<byte>)
    ensures |PutPartitions(ps, version, epoch, rest)| >= |ps|
  {
    if ps != [] {
      PartitionsSize(ps[1..], version, epoch, rest);
    }
  }

  lemma {:induction false} TopicsSize(ts: seq<FetchTopic>, version: int, epoch: int, rest: seq<byte>)
    ensures |PutTopics(ts, version, epoch, rest)| >= |ts|
  {
    if ts != [] {
      TopicsSize(ts[1..], version, epoch, rest);
      var after := PutTopics(ts[1..], version, epoch, rest);
      PartitionsLonger(ts[0].partitions, version, epoch, after);
    }
  }

  lemma {:induction false} PartitionsLonger(ps: seq<FetchPartition>, version: int, epoch: int, rest: seq<byte>)
    ensures |PutPartitions(ps, version, epoch, rest)| >= |rest|
  {
    if ps != [] {
      PartitionsLonger(ps[1..], version, epoch, rest);
    }
  }

  /** One partition of FetchRequest.Decode. */
  method DecodePartition(r: Reader, version: int, ghost ok: bool, ghost want: FetchPartition, ghost epoch: int,
                         ghost rest: seq<byte>) returns (p: FetchPartition)
    requires r.Valid()
    requires ok ==> PartitionFits(want, version) && FitsInt(epoch, 4)
                    && Before(r.buf, r.pos, r.err, PutPartition(want, version, epoch, rest))
    modifies r
    ensures r.Valid() && (ok ==> p == want && Before(r.buf, r.pos, r.err, rest)) && (old(r.err) ==> r.err)
  {
    ghost var t3 := PutInt(want.maxBytes, 4) + rest;
    ghost var t2 := PutIf(version >= 5, want.logStart, 8, t3);
    ghost var t1 := PutInt(want.fetchOffset, 8) + t2;
    var partition := r.ReadInt(4, ok, want.partition, PutIf(version >= 9, epoch, 4, t1));
    if version >= 9 {
      var skipped := r.ReadInt(4, ok, epoch, t1);
    }
    var off := r.ReadInt(8, ok, want.fetchOffset, t2);
    var start := 0;
    if version >= 5 {
      start := r.ReadInt(8, ok, want.logStart, t3);
    }
    var max := r.ReadInt(4, ok, want.maxBytes, rest);
    p := FetchPartition(partition, off, start, max);
  }

  method DecodeTopic(r: Reader, version: int, ghost ok: bool, ghost want: FetchTopic, ghost epoch: int,
                     ghost rest: seq<byte>) returns (t: FetchTopic)
    requires r.Valid()
    requires ok ==> TopicFits(want, version) && FitsInt(epoch, 4)
                    && Before(r.buf, r.pos, r.err, PutTopic(want, version, epoch, rest))
    modifies r
    ensures r.Valid() && (ok ==> t == want && Before(r.buf, r.pos, r.err, rest)) && (old(r.err) ==> r.err)
  {
    ghost var after := PutInt(|want.partitions|, 4) + PutPartitions(want.partitions, version, epoch, rest);
    var name := r.ReadString(ok, want.name, after);
    var parts := DecodePartitions(r, version, ok, want.partitions, epoch, rest);
    t := FetchTopic(name, parts);
  }

  predicate PartitionsFit(ps: seq<FetchPartition>, version: int)
  {
    forall i {:trigger PartitionFits(ps[i], version)} | 0 <= i < |ps| :: PartitionFits(ps[i], version)
  }

  method NextPartition(r: Reader, version: int, ghost ok: bool, ghost want: seq<FetchPartition>, ghost j: nat,
                       ghost epoch: int, ghost rest: seq<byte>)
      returns (p: FetchPartition)
    requires r.Valid()
    requires ok ==> j < |want| && FitsInt(epoch, 4) && PartitionsFit(want, version)
                    && Before(r.buf, r.pos, r.err, PutPartitions(want[j..], version, epoch, rest))
    modifies r
    ensures r.Valid() && (old(r.err) ==> r.err)
    ensures ok ==> p == want[j] && Before(r.buf, r.pos, r.err, PutPartitions(want[j + 1..], version, epoch, rest))
  {
    ghost var p0 := if ok then want[j] else FetchPartition(0, 0, 0, 0);
    ghost var after := if ok then PutPartitions(want[j + 1..], version, epoch, rest) else [];
    if ok {
      assert PartitionFits(want[j], version) && want[j..][1..] == want[j + 1..];
    }
    p := DecodePartition(r, version, ok, p0, epoch, after);
  }

  method DecodePartitions(r: Reader, version: int, ghost ok: bool, ghost want: seq<FetchPartition>, ghost epoch: int,
                          ghost rest: seq<byte>) returns (ps: seq<FetchPartition>)
    requires r.Valid()
    requires ok ==> FitsInt(|want|, 4) && FitsInt(epoch, 4) && PartitionsFit(want, version)
                    && Before(r.buf, r.pos, r.err, PutInt(|want|, 4) + PutPartitions(want, version, epoch, rest))
    modifies r
    ensures r.Valid() && (ok ==> ps == want && Before(r.buf, r.pos, r.err, rest)) && (old(r.err) ==> r.err)
  {
    PartitionsSize(want, version, epoch, rest);
    var np := r.ReadArrayLen(ok, |want|, PutPartitions(want, version, epoch, rest));
    ps := [];
    assert want[0..] == want;
    for j := 0 to np
      invariant r.Valid() && |ps| == j && (old(r.err) ==> r.err)
      invariant ok ==> np == |want| && ps == want[..j]
      invariant ok ==> Before(r.buf, r.pos, r.err, PutPartitions(want[j..], version, epoch, rest))
    {
      var p := NextPartition(r, version, ok, want, j, epoch, rest);
      ps := ps + [p];
      assert ok ==> want[..j + 1] == want[..j] + [want[j]];
    }
    assert ok ==> want[..|want|] == want && want[|want|..] == [];
  }

  /** FetchRequest.Decode at any version: reads back every request that version can carry, and
      leaves the reader right behind it. */
  method DecodeRequest(r: Reader, version: int, ghost ok: bool, ghost want: FetchRequest, ghost epoch: int,
                       ghost rest: seq<byte>) returns (q: FetchRequest)
    requires r.Valid()
    requires ok ==> RequestFits(want, version) && FitsInt(epoch, 4)
                    && Before(r.buf, r.pos, r.err, PutRequest(want, version, epoch, rest))
    modifies r
    ensures r.Valid() && (ok ==> q == want && Before(r.buf, r.pos, r.err, rest)) && (old(r.err) ==> r.err)
  {
    ghost var t7 := PutInt(|want.topics|, 4) + PutTopics(want.topics, version, epoch, rest);
    ghost var t6 := PutIf(version >= 7, want.sessionEpoch, 4, t7);
    ghost var t5 := PutIf(version >= 7, want.sessionId, 4, t6);
    ghost var t4 := PutIf(version >= 4, want.isolation, 1, t5);
    ghost var t3 := PutIf(version >= 3, want.maxBytes, 4, t4);
    ghost var t2 := PutInt(want.minBytes, 4) + t3;
    var replicaId := r.ReadInt(4, ok, want.replicaId, PutInt(want.maxWaitMs, 4) + t2);
    var maxWaitMs := r.ReadInt(4, ok, want.maxWaitMs, t2);
    var minBytes := r.ReadInt(4, ok, want.minBytes, t3);
    var maxBytes, isolation, sessionId, sessionEpoch := 0, 0, 0, 0;
    if version >= 3 {
      maxBytes := r.ReadInt(4, ok, want.maxBytes, t4);
    }
    if version >= 4 {
      isolation := r.ReadInt(1, ok, want.isolation, t5);
    }
    if version >= 7 {
      sessionId := r.ReadInt(4, ok, want.sessionId, t6);
      sessionEpoch := r.ReadInt(4, ok, want.sessionEpoch, t7);
    }
    var topics := DecodeTopics(r, version, ok, want.topics, epoch, rest);
    q := FetchRequest(replicaId, maxWaitMs, minBytes, maxBytes, isolation, sessionId, sessionEpoch, topics);
  }

  method NextTopic(r: Reader, version: int, ghost ok: bool, ghost want: seq<FetchTopic>, ghost i: nat, ghost epoch: int,
                   ghost rest: seq<byte>) returns (t: FetchTopic)
    requires r.Valid()
    requires ok ==> i < |want| && FitsInt(epoch, 4) && TopicsFit(want, version)
                    && Before(r.buf, r.pos, r.err, PutTopics(want[i..], version, epoch, rest))
    modifies r
    ensures r.Valid() && (old(r.err) ==> r.err)
    ensures ok ==> t == want[i] && Before(r.buf, r.pos, r.err, PutTopics(want[i + 1..], version, epoch, rest))
  {
    ghost var t0 := if ok then want[i] else FetchTopic([], []);
    ghost var after := if ok then PutTopics(want[i + 1..], version, epoch, rest) else [];
    if ok {
      assert TopicFits(want[i], version) && want[i..][1..] == want[i + 1..];
    }
    t := DecodeTopic(r, version, ok, t0, epoch, after);
  }

  method DecodeTopics(r: Reader, version: int, ghost ok: bool, ghost want: seq<FetchTopic>, ghost epoch: int,
                      ghost rest: seq<byte>) returns (ts: seq<FetchTopic>)
    requires r.Valid()
    requires ok ==> FitsInt(|want|, 4) && FitsInt(epoch, 4) && TopicsFit(want, version)
                    && Before(r.buf, r.pos, r.err, PutInt(|want|, 4) + PutTopics(want, version, epoch, rest))
    modifies r
    ensures r.Valid() && (ok ==> ts == want && Before(r.buf, r.pos, r.err, rest)) && (old(r.err) ==> r.err)
  {
    TopicsSize(want, version, epoch, rest);
    var nt := r.ReadArrayLen(ok, |want|, PutTopics(want, version, epoch, rest));
    ts := [];
    assert want[0..] == want;
    for i := 0 to nt
      invariant r.Valid() && |ts| == i && (old(r.err) ==> r.err)
      invariant ok ==> nt == |want| && ts == want[..i]
      invariant ok ==> Before(r.buf, r.pos, r.err, PutTopics(want[i..], version, epoch, rest))
    {
      var t := NextTopic(r, version, ok, want, i, epoch, rest);
      ts := ts + [t];
      assert ok ==> want[..i + 1] == want[..i] + [want[i]];
    }
    assert ok ==> want[..|want|] == want && want[|want|..] == [];
  }

  // ---------------------------------------------------------------- what a follower sends

  datatype RequestHeader = RequestHeader(apiKey: int, apiVersion: int, correlationId: int, clientId: Maybe)

  function PutHeader(h: RequestHeader, rest: seq<byte>): seq<byte>
  {
    PutInt(h.apiKey, 2) + (PutInt(h.apiVersion, 2) + (PutInt(h.correlationId, 4) + PutNullable(h.clientId, rest)))
  }

  predicate HeaderFits(h: RequestHeader)
  {
    && FitsInt(h.apiKey, 2) && FitsInt(h.apiVersion, 2) && FitsInt(h.correlationId, 4)
    && (h.clientId == None || FitsInt(|h.clientId.bytes|, 2))
  }

  method DecodeHeader(r: Reader, ghost ok: bool, ghost want: RequestHeader, ghost rest: seq<byte>)
      returns (h: RequestHeader)
    requires r.Valid() && (ok ==> HeaderFits(want) && Before(r.buf, r.pos, r.err, PutHeader(want, rest)))
    modifies r
    ensures r.Valid() && (ok ==> h == want && Before(r.buf, r.pos, r.err, rest)) && (old(r.err) ==> r.err)
  {
    ghost var t3 := PutNullable(want.clientId, rest);
    ghost var t2 := PutInt(want.correlationId, 4) + t3;
    var key := r.ReadInt(2, ok, want.apiKey, PutInt(want.apiVersion, 2) + t2);
    var version := r.ReadInt(2, ok, want.apiVersion, t2);
    var corr := r.ReadInt(4, ok, want.correlationId, t3);
    var client := r.ReadNullable(ok, want.clientId, rest);
    h := RequestHeader(key, version, corr, client);
  }

  const API_FETCH := 1
  const FETCH_VERSION := 4
  const MAX_WAIT_MS := 500
  const MIN_BYTES := 1
  const MAX_BYTES := 0x10_0000
  /** The bytes of "mq-replica". */
  const CLIENT_ID: seq<byte> := [109, 113, 45, 114, 101, 112, 108, 105, 99, 97]

  function FetchHeader(corr: int): RequestHeader
  {
    RequestHeader(API_FETCH, FETCH_VERSION, corr, Some(CLIENT_ID))
  }

  /** A fetch of one partition from an offset. */
  function OneFetch(replicaId: int, topic: seq<byte>, p: int, off: int): FetchRequest
  {
    FetchRequest(replicaId, MAX_WAIT_MS, MIN_BYTES, MAX_BYTES, 0, 0, 0,
                 [FetchTopic(topic, [FetchPartition(p, off, 0, MAX_BYTES)])])
  }

  lemma OneTopic(topic: seq<byte>, p: FetchPartition, epoch: int)
    ensures PutTopics([FetchTopic(topic, [p])], FETCH_VERSION, epoch, [])
            == PutString(topic, PutInt(1, 4) + (PutInt(p.partition, 4)
                                                + (PutInt(p.fetchOffset, 8) + (PutInt(p.maxBytes, 4) + []))))
  {
    var t := FetchTopic(topic, [p]);
    assert [t][1..] == [] && [p][1..] == [];
    assert PutPartitions([p], FETCH_VERSION, epoch, []) == PutPartition(p, FETCH_VERSION, epoch, []);
  }

  /** A length prefix and what it counts. */
  function Framed(payload: seq<byte>): seq<byte>
  {
    BigEndian(|payload|, 4) + payload
  }

  /** encodeFetch. */
  method EncodeFetch(replicaId: int, topic: seq<byte>, p: int, off: int, corr: int) returns (frame: seq<byte>)
    ensures frame == Framed(FetchPayload(replicaId, topic, p, off, corr))
  {
    var payload := EncodePayload(replicaId, topic, p, off, corr);
    frame := BigEndian(|payload|, 4) + payload;
  }

  function FetchPayload(replicaId: int, topic: seq<byte>, p: int, off: int, corr: int): seq<byte>
  {
    PutHeader(FetchHeader(corr), PutRequest(OneFetch(replicaId, topic, p, off), FETCH_VERSION, -1, []))
  }

  method EncodePayload(replicaId: int, topic: seq<byte>, p: int, off: int, corr: int) returns (payload: seq<byte>)
    ensures payload == FetchPayload(replicaId, topic, p, off, corr)
  {
    var w := new Writer();
    ghost var q := OneFetch(replicaId, topic, p, off);
    OneTopic(topic, q.topics[0].partitions[0], -1);
    ghost var p1 := PutInt(off, 8) + (PutInt(MAX_BYTES, 4) + []);
    ghost var p0 := PutInt(1, 4) + (PutInt(p, 4) + p1);
    ghost var body5 := PutInt(1, 4) + PutString(topic, p0);
    ghost var body4 := PutInt(0, 1) + body5;
    ghost var body3 := PutInt(MAX_BYTES, 4) + body4;
    ghost var body2 := PutInt(MIN_BYTES, 4) + body3;
    ghost var body1 := PutInt(MAX_WAIT_MS, 4) + body2;
    ghost var body := PutInt(replicaId, 4) + body1;
    assert body == PutRequest(q, FETCH_VERSION, -1, []);
    ghost var head := PutNullable(Some(CLIENT_ID), body);
    w.WriteInt(API_FETCH, 2, PutInt(FETCH_VERSION, 2) + (PutInt(corr, 4) + head));
    w.WriteInt(FETCH_VERSION, 2, PutInt(corr, 4) + head);
    w.WriteInt(corr, 4, head);
    w.WriteNullable(Some(CLIENT_ID), body);
    assert [] + PutHeader(FetchHeader(corr), body) == PutHeader(FetchHeader(corr), body);
    assert w.buf + body == PutHeader(FetchHeader(corr), body);
    w.WriteInt(replicaId, 4, body1);
    w.WriteInt(MAX_WAIT_MS, 4, body2);
    w.WriteInt(MIN_BYTES, 4, body3);
    w.WriteInt(MAX_BYTES, 4, body4);
    w.WriteInt(0, 1, body5);
    w.WriteInt(1, 4, PutString(topic, p0));
    w.WriteString(topic, p0);
    w.WriteInt(1, 4, PutInt(p, 4) + p1);
    w.WriteInt(p, 4, p1);
    w.WriteInt(off, 8, PutInt(MAX_BYTES, 4) + []);
    w.WriteInt(MAX_BYTES, 4, []);
    assert w.buf + [] == w.buf;
    payload := w.buf;
  }

  /** What the broker makes of that request behind the length prefix: the fields the follower put
      in, and not a byte left over. */
  method RequestRoundTrip(replicaId: int, topic: seq<byte>, p: int, off: int, corr: int)
      returns (h: RequestHeader, q: FetchRequest, clean: bool)
    requires FitsInt(replicaId, 4) && FitsInt(|topic|, 2) && FitsInt(p, 4) && FitsInt(off, 8) && FitsInt(corr, 4)
    ensures h == FetchHeader(corr) && q == OneFetch(replicaId, topic, p, off) && clean
  {
    var frame := EncodeFetch(replicaId, topic, p, off, corr);
    ghost var want := OneFetch(replicaId, topic, p, off);
    ghost var body := PutRequest(want, FETCH_VERSION, -1, []);
    OneFits(replicaId, topic, p, off, corr);
    var r := new Reader(frame[4..]);
    assert r.buf[0..] == r.buf;
    h := DecodeHeader(r, true, FetchHeader(corr), body);
    q := DecodeRequest(r, h.apiVersion, true, want, -1, []);
    clean := !r.err && r.pos == |r.buf|;
  }

  lemma OneFits(replicaId: int, topic: seq<byte>, p: int, off: int, corr: int)
    requires FitsInt(replicaId, 4) && FitsInt(|topic|, 2) && FitsInt(p, 4) && FitsInt(off, 8) && FitsInt(corr, 4)
    ensures HeaderFits(FetchHeader(corr)) && RequestFits(OneFetch(replicaId, topic, p, off), FETCH_VERSION)
            && FitsInt(-1, 4)
  {
    RadixValues();
  }

  // ---------------------------------------------------------------- the response

  datatype PartitionResponse = PartitionResponse(partition: int, errorCode: int, highWatermark: int, lastStable: int,
                                                 logStart: int, records: Maybe)
  datatype TopicResponse = TopicResponse(name: seq<byte>, partitions: seq<PartitionResponse>)
  datatype FetchResponse = FetchResponse(throttleTime: int, errorCode: int, sessionId: int, topics: seq<TopicResponse>)

  function PutResult(p: PartitionResponse, version: int, rest: seq<byte>): seq<byte>
  {
    PutInt(p.partition, 4)
    + (PutInt(p.errorCode, 2)
       + (PutInt(p.highWatermark, 8)
          + PutIf(version >= 4, p.lastStable, 8,
                  PutIf(version >= 5, p.logStart, 8,
                        PutIf(version >= 4, 0, 4,
                              PutIf(version >= 11, -1, 4, PutBytes(p.records, rest)))))))
  }

  function PutResults(ps: seq<PartitionResponse>, version: int, rest: seq<byte>): seq<byte>
  {
    if ps == [] then rest else PutResult(ps[0], version, PutResults(ps[1..], version, rest))
  }

  function PutTopicResult(t: TopicResponse, version: int, rest: seq<byte>): seq<byte>
  {
    PutString(t.name, PutInt(|t.partitions|, 4) + PutResults(t.partitions, version, rest))
  }

  function PutTopicResults(ts: seq<TopicResponse>, version: int, rest: seq<byte>): seq<byte>
  {
    if ts == [] then rest else PutTopicResult(ts[0], version, PutTopicResults(ts[1..], version, rest))
  }

  function PutResponse(resp: FetchResponse, version: int, rest: seq<byte>): seq<byte>
  {
    PutIf(version >= 1, resp.throttleTime, 4,
          PutIf(version >= 7, resp.errorCode, 2,
                PutIf(version >= 7, resp.sessionId, 4,
                      PutInt(|resp.topics|, 4) + PutTopicResults(resp.topics, version, rest))))
  }

  predicate ResultFits(p: PartitionResponse)
  {
    && FitsInt(p.partition, 4) && FitsInt(p.errorCode, 2) && FitsInt(p.highWatermark, 8) && FitsInt(p.lastStable, 8)
    && (p.records == None || FitsInt(|p.records.bytes|, 4))
  }

  predicate ResultsFit(ps: seq<PartitionResponse>)
  {
    forall j {:trigger ResultFits(ps[j])} | 0 <= j < |ps| :: ResultFits(ps[j])
  }

  predicate TopicResultFits(t: TopicResponse)
  {
    FitsInt(|t.name|, 2) && FitsInt(|t.partitions|, 4) && ResultsFit(t.partitions)
  }

  predicate TopicResultsFit(ts: seq<TopicResponse>)
  {
    forall i {:trigger TopicResultFits(ts[i])} | 0 <= i < |ts| :: TopicResultFits(ts[i])
  }

  /** FetchResponse.Encode. */
  method EncodeResponse(w: Writer, resp: FetchResponse, version: int, ghost rest: seq<byte>)
    modifies w
    ensures w.buf + rest == old(w.buf) + PutResponse(resp, version, rest)
  {
    ghost var t3 := PutInt(|resp.topics|, 4) + PutTopicResults(resp.topics, version, rest);
    ghost var t2 := PutIf(version >= 7, resp.sessionId, 4, t3);
    ghost var t1 := PutIf(version >= 7, resp.errorCode, 2, t2);
    if version >= 1 {
      w.WriteInt(resp.throttleTime, 4, t1);
    }
    if version >= 7 {
      w.WriteInt(resp.errorCode, 2, t2);
      w.WriteInt(resp.sessionId, 4, t3);
    }
    w.WriteInt(|resp.topics|, 4, PutTopicResults(resp.topics, version, rest));
    assert resp.topics[0..] == resp.topics;
    ghost var all := old(w.buf) + PutResponse(resp, version, rest);
    for i := 0 to |resp.topics|
      invariant w.buf + PutTopicResults(resp.topics[i..], version, rest) == all
    {
      assert resp.topics[i..][1..] == resp.topics[i + 1..];
      EncodeTopic(w, resp.topics[i], version, PutTopicResults(resp.topics[i + 1..], version, rest));
    }
  }

  method EncodeTopic(w: Writer, t: TopicResponse, version: int, ghost rest: seq<byte>)
    modifies w
    ensures w.buf + rest == old(w.buf) + PutTopicResult(t, version, rest)
  {
    w.WriteString(t.name, PutInt(|t.partitions|, 4) + PutResults(t.partitions, version, rest));
    w.WriteInt(|t.partitions|, 4, PutResults(t.partitions, version, rest));
    assert t.partitions[0..] == t.partitions;
    ghost var all := old(w.buf) + PutTopicResult(t, version, rest);
    for j := 0 to |t.partitions|
      invariant w.buf + PutResults(t.partitions[j..], version, rest) == all
    {
      assert t.partitions[j..][1..] == t.partitions[j + 1..];
      EncodeResult(w, t.partitions[j], version, PutResults(t.partitions[j + 1..], version, rest));
    }
  }

  method EncodeResult(w: Writer, p: PartitionResponse, version: int, ghost rest: seq<byte>)
    modifies w
    ensures w.buf + rest == old(w.buf) + PutResult(p, version, rest)
  {
    ghost var t6 := PutBytes(p.records, rest);
    ghost var t5 := PutIf(version >= 11, -1, 4, t6);
    ghost var t4 := PutIf(version >= 4, 0, 4, t5);
    ghost var t3 := PutIf(version >= 5, p.logStart, 8, t4);
    ghost var t2 := PutIf(version >= 4, p.lastStable, 8, t3);
    w.WriteInt(p.partition, 4, PutInt(p.errorCode, 2) + (PutInt(p.highWatermark, 8) + t2));
    w.WriteInt(p.errorCode, 2, PutInt(p.highWatermark, 8) + t2);
    w.WriteInt(p.highWatermark, 8, t2);
    if version >= 4 {
      w.WriteInt(p.lastStable, 8, t3);
    }
    if version >= 5 {
      w.WriteInt(p.logStart, 8, t4);
    }
    if version >= 4 {
      w.WriteInt(0, 4, t5);
    }
    if version >= 11 {
      w.WriteInt(-1, 4, t6);
    }
    w.WriteBytes(p.records, rest);
  }

  // ---------------------------------------------------------------- what the follower reads

  /** fetchPartitionResult. */
  datatype FetchResult = FetchResult(errorCode: int, hwm: int, records: Maybe)

  const NO_RESULT := FetchResult(0, 0, None)

  function ResultOf(p: PartitionResponse): FetchResult
  {
    FetchResult(p.errorCode, p.highWatermark, p.records)
  }

  /** The first partition of the first topic, which is all a follower asks for. */
  function FirstResult(ts: seq<TopicResponse>): FetchResult
  {
    if ts == [] || ts[0].partitions == [] then NO_RESULT else ResultOf(ts[0].partitions[0])
  }

  method ReadResult(r: Reader, ghost ok: bool, ghost want: PartitionResponse, ghost rest: seq<byte>)
      returns (res: FetchResult)
    requires r.Valid() && (ok ==> ResultFits(want) && Before(r.buf, r.pos, r.err, PutResult(want, FETCH_VERSION, rest)))
    modifies r
    ensures r.Valid() && (ok ==> res == ResultOf(want) && Before(r.buf, r.pos, r.err, rest)) && (old(r.err) ==> r.err)
  {
    ghost var t5 := PutBytes(want.records, rest);
    ghost var t4 := PutInt(0, 4) + t5;
    ghost var t3 := PutInt(want.lastStable, 8) + t4;
    ghost var t2 := PutInt(want.highWatermark, 8) + t3;
    RadixValues();
    var partition := r.ReadInt(4, ok, want.partition, PutInt(want.errorCode, 2) + t2);
    var code := r.ReadInt(2, ok, want.errorCode, t2);
    var hwm := r.ReadInt(8, ok, want.highWatermark, t3);
    var stable := r.ReadInt(8, ok, want.lastStable, t4);
    var na := r.ReadArrayLen(ok, 0, t5);
    for k := 0 to na
      invariant r.Valid() && (ok ==> na == 0 && Before(r.buf, r.pos, r.err, t5)) && (old(r.err) ==> r.err)
    {
      var producer := r.ReadInt(8, false, 0, []);
      var first := r.ReadInt(8, false, 0, []);
    }
    var data := r.ReadBytes(ok, want.records, rest);
    res := FetchResult(code, hwm, data);
  }

  method NextResult(r: Reader, ghost ok: bool, ghost ps: seq<PartitionResponse>, ghost j: nat, ghost rest: seq<byte>)
      returns (res: FetchResult)
    requires r.Valid()
    requires ok ==> j < |ps| && ResultsFit(ps) && Before(r.buf, r.pos, r.err, PutResults(ps[j..], FETCH_VERSION, rest))
    modifies r
    ensures r.Valid() && (old(r.err) ==> r.err)
    ensures ok ==> res == ResultOf(ps[j]) && Before(r.buf, r.pos, r.err, PutResults(ps[j + 1..], FETCH_VERSION, rest))
  {
    ghost var p0 := if ok then ps[j] else PartitionResponse(0, 0, 0, 0, 0, None);
    ghost var after := if ok then PutResults(ps[j + 1..], FETCH_VERSION, rest) else [];
    if ok {
      assert ResultFits(ps[j]) && ps[j..][1..] == ps[j + 1..];
    }
    res := ReadResult(r, ok, p0, after);
  }

  /** One topic of the response; res is kept unless this is the first. */
  method ReadTopic(r: Reader, first: bool, had: FetchResult, ghost ok: bool, ghost want: TopicResponse,
                   ghost rest: seq<byte>)
      returns (res: FetchResult)
    requires r.Valid()
    requires ok ==> TopicResultFits(want) && Before(r.buf, r.pos, r.err, PutTopicResult(want, FETCH_VERSION, rest))
    modifies r
    ensures r.Valid() && (old(r.err) ==> r.err)
    ensures ok ==> Before(r.buf, r.pos, r.err, rest)
                   && res == if first && want.partitions != [] then ResultOf(want.partitions[0]) else had
  {
    ghost var ps := want.partitions;
    ghost var after := PutResults(ps, FETCH_VERSION, rest);
    ResultsSize(ps, rest);
    var name := r.ReadString(ok, want.name, PutInt(|ps|, 4) + after);
    var np := r.ReadArrayLen(ok, |ps|, after);
    res := had;
    assert ps[0..] == ps;
    for j := 0 to np
      invariant r.Valid() && (old(r.err) ==> r.err)
      invariant ok ==> np == |ps| && Before(r.buf, r.pos, r.err, PutResults(ps[j..], FETCH_VERSION, rest))
      invariant ok ==> res == if first && j > 0 then ResultOf(ps[0]) else had
    {
      var one := NextResult(r, ok, ps, j, rest);
      if first && j == 0 {
        res := one;
      }
    }
    assert ok ==> ps[|ps|..] == [];
  }

  lemma {:induction false} ResultsSize(ps: seq<PartitionResponse>, rest: seq<byte>)
    ensures |PutResults(ps, FETCH_VERSION, rest)| >= |ps| && |PutResults(ps, FETCH_VERSION, rest)| >= |rest|
  {
    if ps != [] {
      ResultsSize(ps[1..], rest);
    }
  }

  lemma {:induction false} TopicResultsSize(ts: seq<TopicResponse>, rest: seq<byte>)
    ensures |PutTopicResults(ts, FETCH_VERSION, rest)| >= |ts|
  {
    if ts != [] {
      TopicResultsSize(ts[1..], rest);
      ResultsSize(ts[0].partitions, PutTopicResults(ts[1..], FETCH_VERSION, rest));
    }
  }

  method NextTopicResult(r: Reader, first: bool, had: FetchResult, ghost ok: bool, ghost ts: seq<TopicResponse>,
                         ghost i: nat)
      returns (res: FetchResult)
    requires r.Valid()
    requires ok ==> && i < |ts| && TopicResultsFit(ts)
                    && Before(r.buf, r.pos, r.err, PutTopicResults(ts[i..], FETCH_VERSION, []))
    modifies r
    ensures r.Valid() && (old(r.err) ==> r.err)
    ensures ok ==> Before(r.buf, r.pos, r.err, PutTopicResults(ts[i + 1..], FETCH_VERSION, []))
    ensures ok && !first ==> res == had
    ensures ok && i == 0 && first && had == NO_RESULT ==> res == FirstResult(ts)
  {
    ghost var t0 := if ok then ts[i] else TopicResponse([], []);
    ghost var after := if ok then PutTopicResults(ts[i + 1..], FETCH_VERSION, []) else [];
    if ok {
      assert TopicResultFits(ts[i]) && ts[i..][1..] == ts[i + 1..];
    }
    res := ReadTopic(r, first, had, ok, t0, after);
  }

  /** The body of readFetchResponse, behind the frame length. */
  method ReadResponse(frame: seq<byte>, ghost ok: bool, ghost corr: int, ghost want: FetchResponse)
      returns (res: FetchResult, err: bool)
    requires ok ==> && FitsInt(corr, 4) && FitsInt(want.throttleTime, 4) && FitsInt(|want.topics|, 4)
                    && TopicResultsFit(want.topics)
                    && frame == PutInt(corr, 4) + PutResponse(want, FETCH_VERSION, [])
    ensures ok ==> !err && res == FirstResult(want.topics)
    ensures err ==> res == NO_RESULT
  {
    ghost var ts := want.topics;
    ghost var t1 := PutInt(|ts|, 4) + PutTopicResults(ts, FETCH_VERSION, []);
    var r := new Reader(frame);
    assert frame[0..] == frame;
    var correlation := r.ReadInt(4, ok, corr, PutInt(want.throttleTime, 4) + t1);
    var throttle := r.ReadInt(4, ok, want.throttleTime, t1);
    res := ReadTopics(r, ok, ts);
    err := r.err;
    if err {
      res := NO_RESULT;
    }
  }

  method ReadTopics(r: Reader, ghost ok: bool, ghost ts: seq<TopicResponse>) returns (res: FetchResult)
    requires r.Valid()
    requires ok ==> FitsInt(|ts|, 4) && TopicResultsFit(ts)
                    && Before(r.buf, r.pos, r.err, PutInt(|ts|, 4) + PutTopicResults(ts, FETCH_VERSION, []))
    modifies r
    ensures r.Valid() && (ok ==> res == FirstResult(ts) && !r.err)
  {
    TopicResultsSize(ts, []);
    var nt := r.ReadArrayLen(ok, |ts|, PutTopicResults(ts, FETCH_VERSION, []));
    res := NO_RESULT;
    assert ts[0..] == ts;
    ghost var first := FirstResult(ts);
    for i := 0 to nt
      invariant r.Valid()
      invariant ok ==> nt == |ts| && Before(r.buf, r.pos, r.err, PutTopicResults(ts[i..], FETCH_VERSION, []))
      invariant ok ==> res == if i > 0 then first else NO_RESULT
    {
      res := NextTopicResult(r, i == 0, res, ok, ts, i);
    }
  }

  /** readFetchResponse on the bytes a connection delivers: whatever response the broker encodes
      at this version, framed and with its correlation id, is read back as its first partition's
      error code, high watermark and records. */
  method ReadFetchResponse(conn: seq<byte>, ghost ok: bool, ghost corr: int, ghost want: FetchResponse,
                           ghost more: seq<byte>)
      returns (res: FetchResult, err: bool)
    requires ok ==> && FitsInt(corr, 4) && FitsInt(want.throttleTime, 4) && FitsInt(|want.topics|, 4)
                    && TopicResultsFit(want.topics)
    requires ok ==> var payload := PutInt(corr, 4) + PutResponse(want, FETCH_VERSION, []);
                    |payload| < Radix(4) && conn == Framed(payload) + more
    ensures ok ==> !err && res == FirstResult(want.topics)
    ensures err ==> res == NO_RESULT
  {
    if ok {
      FrameIs(conn, PutInt(corr, 4) + PutResponse(want, FETCH_VERSION, []), more);
    }
    if |conn| < 4 {
      return NO_RESULT, true;
    }
    var size := Uint(conn[0..4]);
    if |conn| < 4 + size {
      return NO_RESULT, true;
    }
    res, err := ReadResponse(conn[4..4 + size], ok, corr, want);
  }

  lemma FrameIs(conn: seq<byte>, payload: seq<byte>, more: seq<byte>)
    requires |payload| < Radix(4) && conn == Framed(payload) + more
    ensures |conn| >= 4 + |payload| && Uint(conn[0..4]) == |payload| && conn[4..4 + |payload|] == payload
  {
    UintOfBigEndian(|payload|, 4);
    assert |payload| % Radix(4) == |payload|;
    assert conn[0..4] == BigEndian(|payload|, 4);
  }

  /** Encoded by the broker, read by the follower. */
  method ResponseRoundTrip(resp: FetchResponse, corr: int) returns (res: FetchResult, err: bool)
    requires FitsInt(corr, 4) && FitsInt(resp.throttleTime, 4) && FitsInt(|resp.topics|, 4)
             && TopicResultsFit(resp.topics)
    requires |PutInt(corr, 4) + PutResponse(resp, FETCH_VERSION, [])| < Radix(4)
    ensures !err && res == FirstResult(resp.topics)
  {
    var w := new Writer();
    ghost var body := PutResponse(resp, FETCH_VERSION, []);
    w.WriteInt(corr, 4, body);
    EncodeResponse(w, resp, FETCH_VERSION, []);
    var payload := w.buf;
    assert payload == payload + [] && [] + (PutInt(corr, 4) + body) == PutInt(corr, 4) + body;
    var frame := BigEndian(|payload|, 4) + payload;
    assert frame == frame + [];
    res, err := ReadFetchResponse(frame, true, corr, resp, []);
  }
}
