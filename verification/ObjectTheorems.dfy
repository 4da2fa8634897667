/** Retention, and what holds in every state the object-backed log can reach. */
module ObjectTheorems {
  import opened Bytes
  import opened Seqs
  import opened Record
  import opened Chunks
  import opened Wal
  import opened ObjectStorage
  import opened ObjectRuns

  // ---------------------------------------------------------------- retention

  /** Index entries cover the offsets [from, to) without gap. */
  predicate Tiles(rs: seq<Ref>, from: int, to: int)
  {
    if rs == [] then from == to
    else rs[0].base == from && from < rs[0].next && Tiles(rs[1..], rs[0].next, to)
  }

  lemma {:induction false} TilesBounds(rs: seq<Ref>, from: int, to: int)
    requires Tiles(rs, from, to)
    ensures from <= to && forall i | 0 <= i < |rs| :: from <= rs[i].base < rs[i].next <= to
  {
    if rs != [] {
      TilesBounds(rs[1..], rs[0].next, to);
      forall i | 0 <= i < |rs| ensures from <= rs[i].base < rs[i].next <= to {
        if i > 0 {
          assert rs[i] == rs[1..][i - 1];
        }
      }
    }
  }

  /** Entries that hold consecutive batches are themselves sorted and gap-free. */
  lemma {:induction false} HeldRefsTile(objects: map<ObjKey, seq<byte>>, rs: seq<Ref>, cs: seq<seq<Batch>>,
                                        from: int, to: int)
    requires RefsHold(objects, rs, cs) && Chain(Flat(cs), from, to)
    ensures Tiles(rs, from, to)
  {
    if rs != [] {
      assert RefHolds(objects, rs[0], cs[0]);
      var c, rest := cs[0], Flat(cs[1..]);
      var bs := c + rest;
      ChainSplit(bs, |c|, from, to);
      assert bs[..|c|] == c && bs[|c|..] == rest;
      ChainBounds(c, from, StartOf(bs, |c|, to));
      forall i | 0 <= i < |rs[1..]| ensures RefHolds(objects, rs[1..][i], cs[1..][i]) {
        assert RefHolds(objects, rs[i + 1], cs[i + 1]);
      }
      HeldRefsTile(objects, rs[1..], cs[1..], rs[0].next, to);
    }
  }

  /** The cutoff-based filter drops exactly the d entries the retention loop counted. */
  lemma {:induction false} PruneIsDrop(rs: seq<Ref>, from: int, to: int, d: nat)
    requires Tiles(rs, from, to) && 0 < d <= |rs|
    ensures Kept(rs, rs[d - 1].next) == rs[d..] && Gone(rs, rs[d - 1].next) == rs[..d]
    ensures Tiles(rs[d..], rs[d - 1].next, to) && from < rs[d - 1].next
  {
    var cutoff := rs[d - 1].next;
    TilesDrop(rs, from, to, d);
    KeepAll(rs[d..], cutoff, to);
    DropBelow(rs[..d], cutoff);
    assert rs == rs[..d] + rs[d..];
    KeptJoin(rs[..d], rs[d..], cutoff);
    GoneJoin(rs[..d], rs[d..], cutoff);
  }

  /** The filter keeps exactly the entries that end above the cutoff, and drops exactly the rest. */
  lemma {:induction false} KeptIs(rs: seq<Ref>, cutoff: int)
    ensures forall r :: r in Kept(rs, cutoff) <==> r in rs && r.next > cutoff
    ensures forall r :: r in Gone(rs, cutoff) <==> r in rs && r.next <= cutoff
    ensures |Kept(rs, cutoff)| + |Gone(rs, cutoff)| == |rs|
  {
    if rs != [] {
      KeptIs(rs[1..], cutoff);
      assert rs == [rs[0]] + rs[1..];
    }
  }

  lemma {:induction false} KeptIn(rs: seq<Ref>, cutoff: int, i: nat)
    requires i < |Kept(rs, cutoff)|
    ensures Kept(rs, cutoff)[i] in rs
  {
    var q := Kept(rs[1..], cutoff);
    if rs[0].next <= cutoff {
      KeptIn(rs[1..], cutoff, i);
    } else if i > 0 {
      KeptIn(rs[1..], cutoff, i - 1);
    }
  }

  lemma {:induction false} EndsOfTiles(rs: seq<Ref>, from: int, to: int)
    requires Tiles(rs, from, to) && rs != []
    ensures rs[0].base == from && rs[|rs| - 1].next == to
  {
    if |rs| > 1 {
      EndsOfTiles(rs[1..], rs[0].next, to);
    }
  }

  lemma {:induction false} TilesDrop(rs: seq<Ref>, from: int, to: int, d: nat)
    requires Tiles(rs, from, to) && 0 < d <= |rs|
    ensures Tiles(rs[d..], rs[d - 1].next, to) && from < rs[d - 1].next
    ensures forall i | 0 <= i < d :: rs[i].next <= rs[d - 1].next
  {
    if d > 1 {
      TilesDrop(rs[1..], rs[0].next, to, d - 1);
      assert rs[1..][d - 1..] == rs[d..];
    }
  }

  lemma {:induction false} DropBelow(rs: seq<Ref>, cutoff: int)
    requires forall i | 0 <= i < |rs| :: rs[i].next <= cutoff
    ensures Kept(rs, cutoff) == [] && Gone(rs, cutoff) == rs
  {
    if rs != [] {
      DropBelow(rs[1..], cutoff);
      assert [rs[0]] + rs[1..] == rs;
    }
  }

  lemma {:induction false} KeepAll(rs: seq<Ref>, cutoff: int, to: int)
    requires Tiles(rs, cutoff, to)
    ensures Kept(rs, cutoff) == rs && Gone(rs, cutoff) == []
  {
    TilesBounds(rs, cutoff, to);
    KeepAbove(rs, cutoff);
  }

  lemma {:induction false} KeepAbove(rs: seq<Ref>, cutoff: int)
    requires forall i | 0 <= i < |rs| :: rs[i].next > cutoff
    ensures Kept(rs, cutoff) == rs && Gone(rs, cutoff) == []
  {
    if rs != [] {
      KeepAbove(rs[1..], cutoff);
      assert [rs[0]] + rs[1..] == rs;
    }
  }

  /** What retention does to one partition's share. */
  lemma GoodRetain(p: Part, a: seq<Batch>, c: seq<Batch>, cutoff: int)
    requires PartGood(p) && p.uploaded == a + c
    requires Chain(a, p.log.earliest, cutoff)
    ensures PartGood(p.(uploaded := c, log := p.log.(earliest := cutoff)))
  {
    var r := p.Retained();
    var r' := c + (p.snap + p.pending);
    Associative(a, c, p.snap + p.pending);
    assert r == a + r';
    ChainSplit(r, |a|, p.log.earliest, p.log.next);
    assert r[..|a|] == a && r[|a|..] == r';
    ChainEndUnique(a, p.log.earliest, StartOf(r, |a|, p.log.next), cutoff);
    SoundJoin(a, r');
    var n := |p.history|;
    SliceSlice(p.history, n - |r|, n, |a|, |r|);
    assert p.history[n - |r|..n] == r;
  }

  lemma {:induction false} ChainEndUnique(bs: seq<Batch>, from: int, x: int, y: int)
    requires Chain(bs, from, x) && Chain(bs, from, y)
    ensures x == y
  {
    if bs != [] {
      ChainEndUnique(bs[1..], bs[0].next, x, y);
    }
  }

  /** Where the index of partition k ends and its un-uploaded batches begin. */
  function IndexEnd(s: Node, k: PartKey): int
    requires k in s.logs && k in s.uploaded && k in s.history
  {
    var p := PartOf(s, k);
    StartOf(p.Retained(), |p.uploaded|, p.log.next)
  }

  /** The committed entries of a partition are sorted and gap-free from its earliest offset to
      where its un-uploaded batches start. */
  lemma EntriesTile(s: Node, k: PartKey)
    requires PartOk(s, k)
    ensures Tiles(s.refs[k], s.logs[k].earliest, IndexEnd(s, k))
  {
    var p := PartOf(s, k);
    var r := p.Retained();
    ChainSplit(r, |p.uploaded|, p.log.earliest, p.log.next);
    assert r[..|p.uploaded|] == p.uploaded;
    HeldRefsTile(s.objects, s.refs[k], s.uploaded[k], p.log.earliest, IndexEnd(s, k));
  }

  /** How many entries Retain drops. */
  function Dropped(s: Node, k: PartKey, now: int, maxAgeMs: int, maxBytes: int): nat
    requires k in s.refs
  {
    DropCount(s.refs[k], RefBytes(s.refs[k]) + PendingBytesOf(s, k), now, maxAgeMs, maxBytes)
  }

  /** Retention drops a prefix of the entries and moves earliest to the first surviving one. */
  lemma RetainDropsPrefix(s: Node, k: PartKey, now: int, maxAgeMs: int, maxBytes: int)
    requires PartOk(s, k)
    ensures var t, d := Retain(s, k, now, maxAgeMs, maxBytes), Dropped(s, k, now, maxAgeMs, maxBytes);
            && t.refs == s.refs[k := s.refs[k][d..]]
            && t.uploaded == s.uploaded[k := s.uploaded[k][d..]]
            && t.logs == s.logs[k := s.logs[k].(earliest := if d == 0 then s.logs[k].earliest
                                                            else s.refs[k][d - 1].next)]
            && Tiles(t.refs[k], t.logs[k].earliest, IndexEnd(s, k))
            && t.objects == (if d == 0 then s.objects else Collect(s.objects, t.refs, s.refs[k][..d]))
            && t == s.(refs := t.refs, uploaded := t.uploaded, logs := t.logs, objects := t.objects)
  {
    var d := Dropped(s, k, now, maxAgeMs, maxBytes);
    EntriesTile(s, k);
    if d > 0 {
      PruneIsDrop(s.refs[k], s.logs[k].earliest, IndexEnd(s, k), d);
    } else {
      assert s.refs[k][0..] == s.refs[k] && s.uploaded[k][0..] == s.uploaded[k];
      assert s.refs[k := s.refs[k]] == s.refs && s.uploaded[k := s.uploaded[k]] == s.uploaded;
      assert s.logs[k := s.logs[k]] == s.logs;
    }
  }

  lemma FlatSplit(cs: seq<seq<Batch>>, d: nat)
    requires d <= |cs|
    ensures Flat(cs) == Flat(cs[..d]) + Flat(cs[d..])
  {
    assert cs == cs[..d] + cs[d..];
    FlatJoin(cs[..d], cs[d..]);
  }

  /** The batches behind the dropped entries end at the last dropped entry's next offset. */
  lemma DroppedChain(objects: map<ObjKey, seq<byte>>, rs: seq<Ref>, cs: seq<seq<Batch>>, d: nat, from: int, to: int)
    requires RefsHold(objects, rs, cs) && Chain(Flat(cs), from, to) && 0 < d <= |rs|
    ensures Chain(Flat(cs[..d]), from, rs[d - 1].next)
  {
    var a := Flat(cs[..d]);
    FlatSplit(cs, d);
    ChainSplit(Flat(cs), |a|, from, to);
    assert Flat(cs)[..|a|] == a;
    assert RefHolds(objects, rs[d - 1], cs[d - 1]);
    FlatSplit(cs[..d], d - 1);
    assert cs[..d][d - 1..] == [cs[d - 1]];
    FlatOne(cs[d - 1]);
    ChainBounds(a, from, StartOf(Flat(cs), |a|, to));
  }

  lemma RetainPartGood(s: Node, k: PartKey, now: int, maxAgeMs: int, maxBytes: int)
    requires PartOk(s, k)
    ensures var t := Retain(s, k, now, maxAgeMs, maxBytes);
            k in t.logs && k in t.history && k in t.uploaded && PartGood(PartOf(t, k))
  {
    var t, d := Retain(s, k, now, maxAgeMs, maxBytes), Dropped(s, k, now, maxAgeMs, maxBytes);
    RetainDropsPrefix(s, k, now, maxAgeMs, maxBytes);
    if d == 0 {
      assert PartOf(t, k) == PartOf(s, k);
    } else {
      var p, cs := PartOf(s, k), s.uploaded[k];
      var cutoff := s.refs[k][d - 1].next;
      ChainSplit(p.Retained(), |p.uploaded|, p.log.earliest, p.log.next);
      assert p.Retained()[..|p.uploaded|] == p.uploaded;
      DroppedChain(s.objects, s.refs[k], cs, d, p.log.earliest, IndexEnd(s, k));
      FlatSplit(cs, d);
      GoodRetain(p, Flat(cs[..d]), Flat(cs[d..]), cutoff);
      assert PartOf(t, k) == p.(uploaded := Flat(cs[d..]), log := p.log.(earliest := cutoff));
    }
  }

  /** Collecting keeps every object some entry still points at. */
  lemma CollectKeeps(objects: map<ObjKey, seq<byte>>, refs: map<PartKey, seq<Ref>>, gone: seq<Ref>,
                     k: PartKey, cs: seq<seq<Batch>>)
    requires k in refs && RefsHold(objects, refs[k], cs)
    ensures RefsHold(Collect(objects, refs, gone), refs[k], cs)
  {
    var rs := refs[k];
    forall i | 0 <= i < |rs| ensures RefHolds(Collect(objects, refs, gone), rs[i], cs[i]) {
      assert RefHolds(objects, rs[i], cs[i]);
      assert KeyIn(rs, rs[i].key);
      assert Referenced(refs, rs[i].key);
    }
  }

  lemma RetainRefs(s: Node, k: PartKey, now: int, maxAgeMs: int, maxBytes: int)
    requires PartOk(s, k)
    ensures var t := Retain(s, k, now, maxAgeMs, maxBytes);
            k in t.refs && k in t.uploaded && RefsHold(t.objects, t.refs[k], t.uploaded[k])
  {
    var t, d := Retain(s, k, now, maxAgeMs, maxBytes), Dropped(s, k, now, maxAgeMs, maxBytes);
    RetainDropsPrefix(s, k, now, maxAgeMs, maxBytes);
    forall i | 0 <= i < |t.refs[k]| ensures RefHolds(s.objects, t.refs[k][i], t.uploaded[k][i]) {
      assert RefHolds(s.objects, s.refs[k][d + i], s.uploaded[k][d + i]);
    }
    if d > 0 {
      CollectKeeps(s.objects, t.refs, s.refs[k][..d], k, t.uploaded[k]);
    }
  }

  /** Retention of one partition, in good order or not, leaves the others alone. */
  lemma RetainOther(s: Node, k: PartKey, now: int, maxAgeMs: int, maxBytes: int, j: PartKey)
    requires KeysOk(s) && k in s.logs && j != k && PartOk(s, j)
    ensures PartOk(Retain(s, k, now, maxAgeMs, maxBytes), j)
  {
    var t, d := Retain(s, k, now, maxAgeMs, maxBytes), Dropped(s, k, now, maxAgeMs, maxBytes);
    assert PartOf(t, j) == PartOf(s, j);
    if d > 0 {
      assert t.refs[j] == s.refs[j] && t.uploaded[j] == s.uploaded[j];
      CollectKeeps(s.objects, t.refs, Gone(s.refs[k], s.refs[k][d - 1].next), j, s.uploaded[j]);
    }
  }

  lemma RetainPart(s: Node, k: PartKey, now: int, maxAgeMs: int, maxBytes: int, j: PartKey)
    requires KeysOk(s) && k in s.logs && PartOk(s, j)
    ensures PartOk(Retain(s, k, now, maxAgeMs, maxBytes), j)
  {
    if j == k {
      RetainPartGood(s, k, now, maxAgeMs, maxBytes);
      RetainRefs(s, k, now, maxAgeMs, maxBytes);
    } else {
      RetainOther(s, k, now, maxAgeMs, maxBytes, j);
    }
  }

  /** Which objects retention deletes: exactly those a dropped entry pointed at and no partition points
      at any more. The others keep their bytes. */
  lemma RetainCollects(s: Node, k: PartKey, now: int, maxAgeMs: int, maxBytes: int, key: ObjKey)
    requires PartOk(s, k)
    ensures var t := Retain(s, k, now, maxAgeMs, maxBytes);
            && k in t.refs && |t.refs[k]| <= |s.refs[k]|
            && (key in t.objects ==> key in s.objects && t.objects[key] == s.objects[key])
            && var dropped := s.refs[k][..|s.refs[k]| - |t.refs[k]|];
               key in t.objects <==> key in s.objects && (Referenced(t.refs, key) || !KeyIn(dropped, key))
  {
    RetainDropsPrefix(s, k, now, maxAgeMs, maxBytes);
  }

  lemma RetainGlobals(s: Node, k: PartKey, now: int, maxAgeMs: int, maxBytes: int)
    requires KeysOk(s) && BuffersOk(s) && k in s.logs
    ensures var t := Retain(s, k, now, maxAgeMs, maxBytes); KeysOk(t) && BuffersOk(t)
  {
  }

  lemma RetainKeeps(s: Node, k: PartKey, now: int, maxAgeMs: int, maxBytes: int)
    requires Inv(s) && k in s.logs
    ensures Inv(Retain(s, k, now, maxAgeMs, maxBytes))
  {
    var t := Retain(s, k, now, maxAgeMs, maxBytes);
    RetainGlobals(s, k, now, maxAgeMs, maxBytes);
    forall j | j in t.logs ensures PartOk(t, j) {
      assert PartOk(s, j);
      RetainPart(s, k, now, maxAgeMs, maxBytes, j);
    }
    Assemble(t);
  }

  /** Where the retention loop stops: the entry there may stay, and none before it may. */
  lemma {:induction false} DropCountExact(rs: seq<Ref>, total: int, now: int, maxAgeMs: int, maxBytes: int)
    ensures var d := DropCount(rs, total, now, maxAgeMs, maxBytes);
            && (d < |rs| ==> !Drops(rs[d], total - RefBytes(rs[..d]), now, maxAgeMs, maxBytes))
            && (forall i | 0 <= i < d :: Drops(rs[i], total - RefBytes(rs[..i]), now, maxAgeMs, maxBytes))
  {
    var d := DropCount(rs, total, now, maxAgeMs, maxBytes);
    if d > 0 {
      var rest, total' := rs[1..], total - rs[0].length;
      DropCountExact(rest, total', now, maxAgeMs, maxBytes);
      assert rs[..d] == [rs[0]] + rest[..d - 1] && rs[..d][1..] == rest[..d - 1];
      forall i | 0 <= i < d ensures Drops(rs[i], total - RefBytes(rs[..i]), now, maxAgeMs, maxBytes) {
        if i > 0 {
          assert rs[..i][1..] == rest[..i - 1];
          assert Drops(rest[i - 1], total' - RefBytes(rest[..i - 1]), now, maxAgeMs, maxBytes);
        }
      }
    }
  }

  lemma {:induction false} RefBytesSplit(rs: seq<Ref>, d: nat)
    requires d <= |rs|
    ensures RefBytes(rs) == RefBytes(rs[..d]) + RefBytes(rs[d..])
  {
    if d == 0 {
      assert rs[0..] == rs;
    } else {
      RefBytesSplit(rs[1..], d - 1);
      assert rs[..d][1..] == rs[1..][..d - 1] && rs[d..] == rs[1..][d - 1..];
    }
  }

  /** What is kept of a partition's entries fits the limits, or nothing is kept. */
  predicate WithinLimits(kept: seq<Ref>, pending: int, now: int, maxAgeMs: int, maxBytes: int)
  {
    kept == [] || ((maxBytes > 0 ==> RefBytes(kept) + pending <= maxBytes)
                   && (maxAgeMs > 0 ==> now - kept[0].uploadedMs <= maxAgeMs))
  }

  /** An entry is over age, or keeping it with those behind it would exceed the byte budget. */
  predicate MustGo(r: Ref, kept: seq<Ref>, pending: int, now: int, maxAgeMs: int, maxBytes: int)
  {
    (maxAgeMs > 0 && now - r.uploadedMs > maxAgeMs) || (maxBytes > 0 && r.length + RefBytes(kept) + pending > maxBytes)
  }

  lemma DropsMeetLimits(rs: seq<Ref>, pending: int, now: int, maxAgeMs: int, maxBytes: int)
    ensures var d := DropCount(rs, RefBytes(rs) + pending, now, maxAgeMs, maxBytes);
            && WithinLimits(rs[d..], pending, now, maxAgeMs, maxBytes)
            && (d > 0 ==> MustGo(rs[d - 1], rs[d..], pending, now, maxAgeMs, maxBytes))
  {
    var size := RefBytes(rs) + pending;
    var d := DropCount(rs, size, now, maxAgeMs, maxBytes);
    DropCountExact(rs, size, now, maxAgeMs, maxBytes);
    RefBytesSplit(rs, d);
    if d > 0 {
      RefBytesSplit(rs, d - 1);
      assert rs[d - 1..][1..] == rs[d..];
      assert Drops(rs[d - 1], size - RefBytes(rs[..d - 1]), now, maxAgeMs, maxBytes);
    }
  }

  /** After retention the partition has no entry left, or its size is within the byte budget and
      its first entry within the age limit. And it drops no entry it need not: the last one gone
      was over age, or keeping it would have kept the size above the budget. */
  lemma RetainMeetsBudget(s: Node, k: PartKey, now: int, maxAgeMs: int, maxBytes: int)
    requires PartOk(s, k)
    ensures var t, rs := Retain(s, k, now, maxAgeMs, maxBytes), s.refs[k];
            && k in t.refs && |t.refs[k]| <= |rs| && PendingBytesOf(t, k) == PendingBytesOf(s, k)
            && WithinLimits(t.refs[k], PendingBytesOf(t, k), now, maxAgeMs, maxBytes)
            && (|t.refs[k]| < |rs| ==>
                  MustGo(rs[|rs| - |t.refs[k]| - 1], t.refs[k], PendingBytesOf(t, k), now, maxAgeMs, maxBytes))
  {
    RetainDropsPrefix(s, k, now, maxAgeMs, maxBytes);
    DropsMeetLimits(s.refs[k], PendingBytesOf(s, k), now, maxAgeMs, maxBytes);
  }

  // ---------------------------------------------------------------- every run

  /** A partition's high watermark and hold flag are its own affair. */
  lemma LogOnlyPart(s: Node, k: PartKey, l: LogState, j: PartKey)
    requires PartOk(s, j) && k in s.logs
    requires j == k ==> l.next == s.logs[k].next && l.earliest == s.logs[k].earliest && l.hwm <= l.next
    ensures PartOk(s.(logs := s.logs[k := l]), j)
  {
    var t, p := s.(logs := s.logs[k := l]), PartOf(s, j);
    assert PartOf(t, j) == if j == k then p.(log := l) else p;
  }

  lemma ReplicaPart(s: Node, k: PartKey, b: Batch, j: PartKey)
    requires PartInv(s, j) && Enabled(s, DoReplica(k, b))
    ensures PartOk(AppendReplica(s, k, b), j)
  {
    AppendPart(s, k, b, j);
    LogOnlyPart(Append(s, k, b), k, AppendReplica(s, k, b).logs[k], j);
  }

  lemma ReplicaGlobals(s: Node, k: PartKey, b: Batch)
    requires KeysOk(s) && BuffersOk(s) && k in s.logs
    ensures var t := AppendReplica(s, k, b); KeysOk(t) && BuffersOk(t)
  {
    AppendGlobals(s, k, b);
  }

  lemma ReplicaKeeps(s: Node, k: PartKey, b: Batch)
    requires Inv(s) && Enabled(s, DoReplica(k, b))
    ensures Inv(AppendReplica(s, k, b))
  {
    var t := AppendReplica(s, k, b);
    ReplicaGlobals(s, k, b);
    forall j | j in t.logs ensures PartOk(t, j) {
      assert PartOk(s, j);
      ReplicaPart(s, k, b, j);
    }
    Assemble(t);
  }

  lemma InitOk(id: string, ks: set<PartKey>)
    ensures Inv(Init(id, ks))
  {
    var s, g := Init(id, ks), WalSeg(1, []);
    assert [g][1..] == [] && Numbered([g], 0);
    NumberedFrom([g], 0, 0);
    forall j | j in s.logs ensures PartOk(s, j) {
      WalOne(g, j);
      assert PartOf(s, j) == Part(LogState(0, 0, false, 0), [], [], [], [], [], []);
    }
    Assemble(s);
  }

  function Denoted(objects: map<ObjKey, seq<byte>>, rs: seq<Ref>): seq<byte>
  {
    if rs == [] then [] else RefSlice(objects, rs[0]) + Denoted(objects, rs[1..])
  }

  lemma {:induction false} DenotedIsConcat(objects: map<ObjKey, seq<byte>>, rs: seq<Ref>, cs: seq<seq<Batch>>)
    requires RefsHold(objects, rs, cs)
    ensures Denoted(objects, rs) == Concat(Flat(cs))
  {
    if rs != [] {
      assert RefHolds(objects, rs[0], cs[0]);
      forall i | 0 <= i < |rs[1..]| ensures RefHolds(objects, rs[1..][i], cs[1..][i]) {
        assert RefHolds(objects, rs[i + 1], cs[i + 1]);
      }
      DenotedIsConcat(objects, rs[1..], cs[1..]);
      ConcatJoin(cs[0], Flat(cs[1..]));
    }
  }

  /** The end of a history that starts at offset e is what lies at or above e. */
  lemma SuffixIsSkip(h: seq<Batch>, r: seq<Batch>, e: int, n: int)
    requires Chain(h, 0, n) && Chain(r, e, n) && IsSuffix(r, h)
    ensures Skip(h, e) == r
  {
    var m := |h| - |r|;
    ChainSplit(h, m, 0, n);
    ChainBounds(r, e, n);
    ChainBounds(h[..m], 0, StartOf(h, m, n));
    assert StartOf(h, m, n) == e by {
      assert m < |h| ==> h[m] == r[0];
    }
    forall k | 0 <= k < m ensures h[k].next <= e {
      assert h[k] == h[..m][k];
    }
    SkipFrom(h, m, e);
  }

  /** What the invariant says of one partition, in terms of what was ever appended: the object
      bytes behind its index entries, then the snapshot in flight, then the pending buffer are
      exactly the bytes of every appended batch at or above the earliest offset. */
  lemma Conservation(s: Node, k: PartKey)
    requires PartInv(s, k)
    ensures var kept := Skip(s.history[k], s.logs[k].earliest);
            && Denoted(s.objects, s.refs[k]) + Concat(Held(Snap(s), k) + Held(s.pending, k)) == Concat(kept)
            && Chain(kept, s.logs[k].earliest, s.logs[k].next)
            && Tiles(s.refs[k], s.logs[k].earliest, IndexEnd(s, k))
            && Chain(Held(Snap(s), k) + Held(s.pending, k), IndexEnd(s, k), s.logs[k].next)
            && WalOf(s.wal, k) == Held(Snap(s), k) + Held(s.pending, k)
  {
    assert PartOk(s, k);
    var p := PartOf(s, k);
    var rest := p.snap + p.pending;
    SuffixIsSkip(p.history, p.Retained(), p.log.earliest, p.log.next);
    DenotedIsConcat(s.objects, s.refs[k], s.uploaded[k]);
    ConcatJoin(p.uploaded, rest);
    EntriesTile(s, k);
    ChainSplit(p.Retained(), |p.uploaded|, p.log.earliest, p.log.next);
    assert p.Retained()[|p.uploaded|..] == rest;
    NumberedSplit(s.wal, 0, Cut(s));
    WalJoin(Upto(s.wal, Cut(s)), After(s.wal, Cut(s)), k);
  }
}
