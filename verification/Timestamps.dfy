/** Looking offsets up by time: both backends answer with the first retained batch that is recent
    enough. */
module Timestamps {
  import opened Bytes
  import opened Record
  import opened Chunks
  import opened Segments
  import opened FileLog
  import opened Wal
  import opened ObjectStorage
  import opened ObjectRuns
  import opened ObjectNode
  import opened ObjectBackend

  datatype Lookup = NotFound | Found(offset: int)

  /** The base offset of the first batch whose largest timestamp is at least ts. */
  function FirstSince(bs: seq<Batch>, ts: int): Lookup
  {
    if bs == [] then NotFound else if bs[0].maxTs >= ts then Found(bs[0].base) else FirstSince(bs[1..], ts)
  }

  /** It is recent enough, and none before it is; or none is. */
  lemma {:induction false} FirstSinceIs(bs: seq<Batch>, ts: int)
    ensures match FirstSince(bs, ts)
            case Found(off) =>
              exists i | 0 <= i < |bs| ::
                bs[i].base == off && bs[i].maxTs >= ts && forall j | 0 <= j < i :: bs[j].maxTs < ts
            case NotFound => forall i | 0 <= i < |bs| :: bs[i].maxTs < ts
  {
    if bs != [] && bs[0].maxTs < ts {
      FirstSinceIs(bs[1..], ts);
      if FirstSince(bs, ts).Found? {
        var i :| 0 <= i < |bs[1..]| && bs[1..][i].base == FirstSince(bs, ts).offset && bs[1..][i].maxTs >= ts
                 && forall j | 0 <= j < i :: bs[1..][j].maxTs < ts;
        assert bs[i + 1] == bs[1..][i];
        forall j | 0 <= j < i + 1 ensures bs[j].maxTs < ts {
          assert j > 0 ==> bs[j] == bs[1..][j - 1];
        }
      }
    }
  }

  lemma {:induction false} FirstSinceJoin(bs: seq<Batch>, cs: seq<Batch>, ts: int)
    ensures FirstSince(bs + cs, ts) == if FirstSince(bs, ts).Found? then FirstSince(bs, ts) else FirstSince(cs, ts)
  {
    if bs == [] {
      assert bs + cs == cs;
    } else {
      FirstSinceJoin(bs[1..], cs, ts);
      assert (bs + cs)[1..] == bs[1..] + cs;
    }
  }

  /** scanTimestamp. */
  method ScanTimestamp(data: seq<byte>, ts: int, ghost bs: seq<Batch>) returns (r: Lookup)
    requires Sound(bs) && data == Concat(bs)
    ensures r == FirstSince(bs, ts)
  {
    var pos := 0;
    ghost var n := 0;
    PosEnds(bs);
    assert bs[0..] == bs && data + [] == data;
    while pos < |data|
      invariant n <= |bs| && pos == PosOf(bs, n) <= |data| && FirstSince(bs, ts) == FirstSince(bs[n..], ts)
      decreases |data| - pos
    {
      ScanStep(data, bs, [], n, pos);
      var p := ParseHeader(data[pos..]);
      if !p.Ok? {
        return NotFound;
      }
      assert bs[n..][1..] == bs[n + 1..];
      if p.header.maxTimestamp >= ts {
        return Found(p.header.baseOffset);
      }
      pos := pos + p.header.TotalSize();
      n := n + 1;
    }
    if n < |bs| {
      PosMonotone(bs, n, |bs|);
      assert false;
    }
    r := NotFound;
  }

  /** The file log's OffsetForTimestamp. */
  method FileLookup(log: Log, ts: int) returns (r: Lookup)
    requires log.Valid()
    ensures r == FirstSince(log.Contents(), ts)
  {
    ghost var vs := log.views;
    for i := 0 to |log.sealed|
      invariant FirstSince(Stored(vs[..i]), ts) == NotFound
    {
      assert log.sealed[i].Shows(vs[i], log.indexInterval);
      LayoutAt(vs, log.nextOffset, i);
      StoredAround(vs, i, ts);
      var one := ScanTimestamp(log.sealed[i].log, ts, vs[i].batches);
      if one.Found? {
        return one;
      }
    }
    ghost var n := |log.sealed|;
    LayoutAt(vs, log.nextOffset, n);
    StoredAround(vs, n, ts);
    r := ScanTimestamp(log.active.log, ts, vs[n].batches);
    assert vs[..n + 1] == vs;
  }

  /** One more segment of a log searched from the front. */
  lemma StoredAround(vs: seq<SegView>, i: nat, ts: int)
    requires i < |vs| && FirstSince(Stored(vs[..i]), ts) == NotFound
    ensures FirstSince(Stored(vs[..i + 1]), ts) == FirstSince(vs[i].batches, ts)
    ensures FirstSince(vs[i].batches, ts).Found? ==> FirstSince(Stored(vs), ts) == FirstSince(vs[i].batches, ts)
  {
    assert vs[..i + 1] == vs[..i] + [vs[i]];
    StoredJoin(vs[..i], [vs[i]]);
    StoredOne(vs[i]);
    FirstSinceJoin(Stored(vs[..i]), vs[i].batches, ts);
    assert vs == vs[..i + 1] + vs[i + 1..];
    StoredJoin(vs[..i + 1], vs[i + 1..]);
    FirstSinceJoin(Stored(vs[..i + 1]), Stored(vs[i + 1..]), ts);
  }

  /** The object log's offsetForTimestamp: the uploaded slices in order, then the pending buffer. */
  method ObjectLookup(st: Storage, k: PartKey, ts: int) returns (r: Lookup)
    requires st.Valid() && PartInv(st.node, k)
    ensures r == FirstSince(Flat(st.node.uploaded[k]) + Held(st.node.pending, k), ts)
  {
    ghost var cs := st.node.uploaded[k];
    var rs := st.refs[k];
    FirstSinceJoin(Flat(cs), Held(st.node.pending, k), ts);
    for i := 0 to |rs|
      invariant FirstSince(Flat(cs[..i]), ts) == NotFound
    {
      assert RefHolds(st.objects, rs[i], cs[i]);
      ghost var a, b := UploadedRun(st.node, k, i);
      FlatAround(cs, i, ts);
      var one := ScanTimestamp(RefSlice(st.objects, rs[i]), ts, cs[i]);
      if one.Found? {
        return one;
      }
    }
    assert cs[..|cs|] == cs;
    if k in st.pending {
      ghost var a, b := PendingRun(st.node, k);
      var data := ConcatLoop(st.pending[k].batches);
      r := ScanTimestamp(data, ts, st.pending[k].batches);
    } else {
      r := NotFound;
    }
  }

  lemma FlatAround(cs: seq<seq<Batch>>, i: nat, ts: int)
    requires i < |cs| && FirstSince(Flat(cs[..i]), ts) == NotFound
    ensures FirstSince(Flat(cs[..i + 1]), ts) == FirstSince(cs[i], ts)
    ensures FirstSince(cs[i], ts).Found? ==> FirstSince(Flat(cs), ts) == FirstSince(cs[i], ts)
  {
    assert cs[..i + 1] == cs[..i] + [cs[i]];
    FlatJoin(cs[..i], [cs[i]]);
    FlatOne(cs[i]);
    FirstSinceJoin(Flat(cs[..i]), cs[i], ts);
    assert cs == cs[..i + 1] + cs[i + 1..];
    FlatJoin(cs[..i + 1], cs[i + 1..]);
    FirstSinceJoin(Flat(cs[..i + 1]), Flat(cs[i + 1..]), ts);
  }

  lemma {:induction false} FoundWithin(bs: seq<Batch>, from: int, to: int, ts: int)
    requires Chain(bs, from, to) && FirstSince(bs, ts).Found?
    ensures from <= FirstSince(bs, ts).offset < to
  {
    ChainBounds(bs, from, to);
    if bs[0].maxTs < ts {
      FoundWithin(bs[1..], bs[0].next, to, ts);
    }
  }

  /** That search passes over a snapshot being uploaded. It finds what a search of everything the
      partition retains would find, if and only if the first batch recent enough is not in the
      snapshot; so always when no upload is in flight, and then the two backends agree. */
  lemma ObjectLookupExact(s: Node, k: PartKey, ts: int)
    requires PartInv(s, k)
    ensures var p := PartOf(s, k);
            FirstSince(p.uploaded + p.pending, ts) == FirstSince(p.Retained(), ts)
            <==> FirstSince(p.uploaded, ts).Found? || FirstSince(p.snap, ts) == NotFound
  {
    assert PartOk(s, k);
    var p := PartOf(s, k);
    FirstSinceJoin(p.uploaded, p.pending, ts);
    FirstSinceJoin(p.uploaded, p.snap + p.pending, ts);
    FirstSinceJoin(p.snap, p.pending, ts);
    var rest := p.snap + p.pending;
    ChainSplit(p.Retained(), |p.uploaded|, p.log.earliest, p.log.next);
    assert p.Retained()[|p.uploaded|..] == rest;
    var mid := StartOf(p.Retained(), |p.uploaded|, p.log.next);
    ChainSplit(rest, |p.snap|, mid, p.log.next);
    assert rest[..|p.snap|] == p.snap && rest[|p.snap|..] == p.pending;
    var cut := StartOf(rest, |p.snap|, p.log.next);
    if FirstSince(p.snap, ts).Found? {
      FoundWithin(p.snap, mid, cut, ts);
    }
    if FirstSince(p.pending, ts).Found? {
      FoundWithin(p.pending, cut, p.log.next, ts);
    }
  }
}
