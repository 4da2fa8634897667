/** The object-backed log of a node as a state machine: appends go to a write-ahead log and a
    pending buffer, an uploader moves the buffer into one shared object and an index, retention
    drops old index entries and objects nobody points at.

    Two components record history and are never read by a step: history (every batch a
    partition was ever given) and uploaded (the batches each index entry was written from). */
module ObjectStorage {
  import opened Bytes
  import opened Seqs
  import opened Record
  import opened Wal

  datatype ObjKey = ObjKey(node: string, seqNo: nat)

  /** SegmentRef: one partition's slice [position, position + length) of an object. */
  datatype Ref = Ref(key: ObjKey, base: int, next: int, position: int, length: int, uploadedMs: int)

  /** pendingPart: one partition's batches that are not uploaded yet. */
  datatype Pending = Pending(base: int, next: int, batches: seq<Batch>, bytes: int)
  type Buffer = map<PartKey, Pending>

  datatype WalEntry = WalEntry(key: PartKey, batch: Batch)
  datatype WalSeg = WalSeg(seqNo: nat, entries: seq<WalEntry>)

  datatype Upload = Idle | InFlight(snap: Buffer, seqNo: nat, sealed: nat)

  datatype LogState = LogState(next: int, hwm: int, hold: bool, earliest: int)

  datatype Node = Node(
    id: string,
    pending: Buffer, pendingBytes: int,
    uploadSeq: nat, upload: Upload,
    wal: seq<WalSeg>,
    refs: map<PartKey, seq<Ref>>, objects: map<ObjKey, seq<byte>>,
    logs: map<PartKey, LogState>,
    history: map<PartKey, seq<Batch>>, uploaded: map<PartKey, seq<seq<Batch>>>)

  function Snap(s: Node): Buffer
  {
    if s.upload.InFlight? then s.upload.snap else map[]
  }

  function Held(m: Buffer, k: PartKey): seq<Batch>
  {
    if k in m then m[k].batches else []
  }

  // ---------------------------------------------------------------- the pending buffer

  /** What partition k's entry becomes when batch b is appended. */
  function Extended(m: Buffer, k: PartKey, b: Batch): Pending
  {
    if k in m then Pending(m[k].base, b.next, m[k].batches + [b], m[k].bytes + |b.bytes|)
    else Pending(b.base, b.next, [b], |b.bytes|)
  }

  /** appendPendingLocked */
  function AppendPending(m: Buffer, k: PartKey, b: Batch): Buffer
  {
    m[k := Extended(m, k, b)]
  }

  /** What restore makes of one partition: the failed snapshot goes in front of what was
      appended since. */
  function Merge(old_: Pending, cur: Pending): Pending
  {
    Pending(old_.base, cur.next, old_.batches + cur.batches, old_.bytes + cur.bytes)
  }

  function Restored(snap: Buffer, pending: Buffer): Buffer
  {
    map k | k in snap.Keys + pending.Keys ::
      if k !in snap then pending[k] else if k !in pending then snap[k] else Merge(snap[k], pending[k])
  }

  predicate EntryOk(p: Pending)
  {
    && p.batches != [] && p.base == p.batches[0].base
    && p.next == p.batches[|p.batches| - 1].next && p.bytes == |Concat(p.batches)|
  }

  predicate BufferOk(m: Buffer)
  {
    forall k {:trigger EntryOk(m[k])} | k in m :: EntryOk(m[k])
  }

  /** The byte counter's meaning: the sizes of all buffered partitions together. */
  ghost function SumBytes(m: Buffer): int
    decreases |m|
  {
    if m == map[] then 0
    else
      var k :| k in m;
      m[k].bytes + SumBytes(m - {k})
  }

  lemma {:induction false} SumOne(m: Buffer, k: PartKey)
    requires k in m
    ensures SumBytes(m) == m[k].bytes + SumBytes(m - {k})
    decreases |m|
  {
    var j :| j in m && SumBytes(m) == m[j].bytes + SumBytes(m - {j});
    if j != k {
      SumOne(m - {j}, k);
      SumOne(m - {k}, j);
      assert m - {j} - {k} == m - {k} - {j};
    }
  }

  lemma SumUpdate(m: Buffer, k: PartKey, p: Pending)
    ensures SumBytes(m[k := p]) == p.bytes + SumBytes(m) - (if k in m then m[k].bytes else 0)
  {
    SumOne(m[k := p], k);
    if k in m {
      SumOne(m, k);
      assert m[k := p] - {k} == m - {k};
    } else {
      assert m[k := p] - {k} == m;
    }
  }

  // ---------------------------------------------------------------- the write-ahead log

  function WalAppend(wal: seq<WalSeg>, e: WalEntry): seq<WalSeg>
    requires wal != []
  {
    var n := |wal| - 1;
    wal[..n] + [WalSeg(wal[n].seqNo, wal[n].entries + [e])]
  }

  function ActiveSeq(wal: seq<WalSeg>): nat
    requires wal != []
  {
    wal[|wal| - 1].seqNo
  }

  function Active(wal: seq<WalSeg>): seq<WalEntry>
    requires wal != []
  {
    wal[|wal| - 1].entries
  }

  /** The write-ahead log without the last records of its active segment. */
  function CutLast(wal: seq<WalSeg>, lost: nat): (w: seq<WalSeg>)
    requires wal != [] && lost <= |Active(wal)|
    ensures w != []
  {
    var n := |wal| - 1;
    wal[..n] + [WalSeg(wal[n].seqNo, wal[n].entries[..|wal[n].entries| - lost])]
  }

  /** rotate: seals the active segment and opens the next one. */
  function Rotate(wal: seq<WalSeg>): seq<WalSeg>
    requires wal != []
  {
    wal + [WalSeg(ActiveSeq(wal) + 1, [])]
  }

  /** deleteThrough */
  function After(wal: seq<WalSeg>, sealed: int): seq<WalSeg>
  {
    if wal == [] then []
    else if wal[0].seqNo > sealed then [wal[0]] + After(wal[1..], sealed)
    else After(wal[1..], sealed)
  }

  function Upto(wal: seq<WalSeg>, sealed: int): seq<WalSeg>
  {
    if wal == [] then []
    else if wal[0].seqNo <= sealed then [wal[0]] + Upto(wal[1..], sealed)
    else Upto(wal[1..], sealed)
  }

  /** Segment numbers grow, and start at or above from. */
  predicate Numbered(wal: seq<WalSeg>, from: int)
  {
    wal == [] || (from <= wal[0].seqNo && Numbered(wal[1..], wal[0].seqNo + 1))
  }

  function Entries(wal: seq<WalSeg>): seq<WalEntry>
  {
    if wal == [] then [] else wal[0].entries + Entries(wal[1..])
  }

  /** One partition's batches among mixed entries, in order. */
  function ForKey(es: seq<WalEntry>, k: PartKey): seq<Batch>
  {
    if es == [] then []
    else (if es[0].key == k then [es[0].batch] else []) + ForKey(es[1..], k)
  }

  function WalOf(wal: seq<WalSeg>, k: PartKey): seq<Batch>
  {
    ForKey(Entries(wal), k)
  }

  lemma {:induction false} ForKeyJoin(es: seq<WalEntry>, fs: seq<WalEntry>, k: PartKey)
    ensures ForKey(es + fs, k) == ForKey(es, k) + ForKey(fs, k)
  {
    if es == [] {
      assert es + fs == fs;
    } else {
      ForKeyJoin(es[1..], fs, k);
      assert (es + fs)[1..] == es[1..] + fs;
      Associative(if es[0].key == k then [es[0].batch] else [], ForKey(es[1..], k), ForKey(fs, k));
    }
  }

  lemma {:induction false} EntriesJoin(v: seq<WalSeg>, w: seq<WalSeg>)
    ensures Entries(v + w) == Entries(v) + Entries(w)
  {
    if v == [] {
      assert v + w == w;
    } else {
      EntriesJoin(v[1..], w);
      assert (v + w)[1..] == v[1..] + w;
      Associative(v[0].entries, Entries(v[1..]), Entries(w));
    }
  }

  lemma WalJoin(v: seq<WalSeg>, w: seq<WalSeg>, k: PartKey)
    ensures WalOf(v + w, k) == WalOf(v, k) + WalOf(w, k)
  {
    EntriesJoin(v, w);
    ForKeyJoin(Entries(v), Entries(w), k);
  }

  lemma WalOne(g: WalSeg, k: PartKey)
    ensures WalOf([g], k) == ForKey(g.entries, k)
  {
    assert [g][1..] == [];
    assert Entries([g]) == g.entries;
  }

  lemma {:induction false} NumberedSplit(wal: seq<WalSeg>, from: int, n: int)
    requires Numbered(wal, from)
    ensures wal == Upto(wal, n) + After(wal, n)
    ensures n < from ==> Upto(wal, n) == []
    ensures Numbered(After(wal, n), if n < from then from else n + 1)
  {
    if wal != [] {
      NumberedSplit(wal[1..], wal[0].seqNo + 1, n);
    }
  }

  lemma {:induction false} NumberedLast(wal: seq<WalSeg>, from: int)
    requires Numbered(wal, from) && wal != []
    ensures from <= ActiveSeq(wal) && Numbered(Rotate(wal), from)
    ensures Upto(wal, ActiveSeq(wal)) == wal && After(wal, ActiveSeq(wal)) == []
  {
    if |wal| > 1 {
      NumberedLast(wal[1..], wal[0].seqNo + 1);
      assert Rotate(wal)[1..] == Rotate(wal[1..]);
    } else {
      assert wal[1..] == [] && Rotate(wal)[1..] == [WalSeg(ActiveSeq(wal) + 1, [])];
      assert [WalSeg(ActiveSeq(wal) + 1, [])][1..] == [];
    }
  }

  lemma WalAppendOf(wal: seq<WalSeg>, e: WalEntry, k: PartKey)
    requires wal != []
    ensures WalOf(WalAppend(wal, e), k) == WalOf(wal, k) + (if e.key == k then [e.batch] else [])
  {
    var n := |wal| - 1;
    assert wal == wal[..n] + [wal[n]];
    var g := WalSeg(wal[n].seqNo, wal[n].entries + [e]);
    WalJoin(wal[..n], [wal[n]], k);
    WalJoin(wal[..n], [g], k);
    WalOne(wal[n], k);
    WalOne(g, k);
    ForKeyJoin(wal[n].entries, [e], k);
    assert [e][1..] == [];
    Associative(WalOf(wal[..n], k), ForKey(wal[n].entries, k), if e.key == k then [e.batch] else []);
  }

  lemma WalAppendCons(g: WalSeg, wal: seq<WalSeg>, e: WalEntry)
    requires wal != []
    ensures WalAppend([g] + wal, e) == [g] + WalAppend(wal, e)
  {
  }

  /** An append to the last segment leaves the numbering and every older segment alone. */
  lemma {:induction false} WalAppendAfter(wal: seq<WalSeg>, e: WalEntry, from: int, n: int)
    requires wal != [] && Numbered(wal, from) && n < ActiveSeq(wal)
    ensures Numbered(WalAppend(wal, e), from) && ActiveSeq(WalAppend(wal, e)) == ActiveSeq(wal)
    ensures After(wal, n) != [] && After(WalAppend(wal, e), n) == WalAppend(After(wal, n), e)
    ensures Upto(WalAppend(wal, e), n) == Upto(wal, n)
  {
    if |wal| > 1 {
      WalAppendAfter(wal[1..], e, wal[0].seqNo + 1, n);
      assert WalAppend(wal, e)[1..] == WalAppend(wal[1..], e);
      WalAppendCons(wal[0], After(wal[1..], n), e);
    } else {
      var g := WalSeg(wal[0].seqNo, wal[0].entries + [e]);
      assert WalAppend(wal, e) == [g] && [g][1..] == [] && wal[1..] == [];
    }
  }

  // ---------------------------------------------------------------- objects and the index

  /** The object's bytes: the buffered partitions one after the other. */
  function ObjectBytes(snap: Buffer, order: seq<PartKey>): seq<byte>
    requires forall i | 0 <= i < |order| :: order[i] in snap
  {
    if order == [] then []
    else ObjectBytes(snap, order[..|order| - 1]) + Concat(snap[order[|order| - 1]].batches)
  }

  /** The index entry upload writes for partition k. */
  function RefFor(snap: Buffer, order: seq<PartKey>, k: PartKey, key: ObjKey, now: int): Ref
    requires k in order && forall i | 0 <= i < |order| :: order[i] in snap
  {
    var n := |order| - 1;
    if order[n] == k then
      Ref(key, snap[k].base, snap[k].next, |ObjectBytes(snap, order[..n])|, |Concat(snap[k].batches)|, now)
    else RefFor(snap, order[..n], k, key, now)
  }

  predicate Enumerates(order: seq<PartKey>, m: Buffer)
  {
    && (forall i | 0 <= i < |order| :: order[i] in m)
    && (forall k | k in m :: k in order)
    && (forall i, j | 0 <= i < j < |order| :: order[i] != order[j])
  }

  /** An index entry points at exactly the bytes of these batches. */
  predicate RefHolds(objects: map<ObjKey, seq<byte>>, r: Ref, c: seq<Batch>)
  {
    && c != [] && r.base == c[0].base && r.next == c[|c| - 1].next
    && r.key in objects && 0 <= r.position && r.length == |Concat(c)|
    && r.position + r.length <= |objects[r.key]|
    && objects[r.key][r.position..r.position + r.length] == Concat(c)
  }

  /** The bytes an index entry points at. */
  function RefSlice(objects: map<ObjKey, seq<byte>>, r: Ref): seq<byte>
  {
    if r.key in objects && 0 <= r.position <= r.position + r.length <= |objects[r.key]|
    then objects[r.key][r.position..r.position + r.length] else []
  }

  predicate RefsHold(objects: map<ObjKey, seq<byte>>, rs: seq<Ref>, cs: seq<seq<Batch>>)
  {
    && |rs| == |cs|
    && forall i {:trigger RefHolds(objects, rs[i], cs[i])} | 0 <= i < |rs| :: RefHolds(objects, rs[i], cs[i])
  }

  lemma {:induction false} RefForHolds(snap: Buffer, order: seq<PartKey>, k: PartKey, key: ObjKey, now: int,
                                       tail: seq<byte>)
    requires k in order && (forall i | 0 <= i < |order| :: order[i] in snap) && EntryOk(snap[k])
    ensures var r, data := RefFor(snap, order, k, key, now), ObjectBytes(snap, order) + tail;
            && r.key == key && r.uploadedMs == now
            && RefHolds(map[key := data], r, snap[k].batches)
  {
    var n := |order| - 1;
    var a, x := ObjectBytes(snap, order[..n]), Concat(snap[order[n]].batches);
    Associative(a, x, tail);
    if order[n] == k {
      Window(a, x, tail);
    } else {
      assert k in order[..n];
      RefForHolds(snap, order[..n], k, key, now, x + tail);
    }
  }

  lemma {:induction false} NumberedFrom(wal: seq<WalSeg>, from: int, lower: int)
    requires Numbered(wal, from) && lower <= from
    ensures Numbered(wal, lower)
    ensures After(wal, lower - 1) == wal && Upto(wal, lower - 1) == []
  {
    if wal != [] {
      NumberedFrom(wal[1..], wal[0].seqNo + 1, lower);
    }
  }

  lemma {:induction false} AfterActive(wal: seq<WalSeg>, from: int, n: int)
    requires wal != [] && Numbered(wal, from) && n < ActiveSeq(wal)
    ensures After(wal, n) != [] && ActiveSeq(After(wal, n)) == ActiveSeq(wal) && Active(After(wal, n)) == Active(wal)
  {
    if |wal| > 1 {
      AfterActive(wal[1..], wal[0].seqNo + 1, n);
    } else {
      assert wal[1..] == [];
    }
  }

  /** Sealing splits the log: everything so far on one side, the new segment on the other. */
  lemma {:induction false} RotateSplit(wal: seq<WalSeg>, from: int)
    requires wal != [] && Numbered(wal, from)
    ensures Upto(Rotate(wal), ActiveSeq(wal)) == wal
    ensures After(Rotate(wal), ActiveSeq(wal)) == [WalSeg(ActiveSeq(wal) + 1, [])]
  {
    var g := WalSeg(ActiveSeq(wal) + 1, []);
    NumberedLast(wal, from);
    assert [g][1..] == [];
    if |wal| > 1 {
      RotateSplit(wal[1..], wal[0].seqNo + 1);
      assert Rotate(wal)[1..] == Rotate(wal[1..]);
      NumberedLast(wal[1..], wal[0].seqNo + 1);
    } else {
      assert Rotate(wal)[1..] == [g];
    }
  }

  lemma {:induction false} EntriesAfter(wal: seq<WalSeg>, sealed: int)
    ensures forall e | e in Entries(After(wal, sealed)) :: e in Entries(wal)
  {
    if wal != [] {
      EntriesAfter(wal[1..], sealed);
    }
  }

  lemma EntriesAppend(wal: seq<WalSeg>, e: WalEntry)
    requires wal != []
    ensures Entries(WalAppend(wal, e)) == Entries(wal) + [e]
  {
    var n := |wal| - 1;
    var g := WalSeg(wal[n].seqNo, wal[n].entries + [e]);
    assert wal == wal[..n] + [wal[n]] && [wal[n]][1..] == [] && [g][1..] == [];
    EntriesJoin(wal[..n], [wal[n]]);
    EntriesJoin(wal[..n], [g]);
  }

  lemma EntriesRotate(wal: seq<WalSeg>)
    requires wal != []
    ensures Entries(Rotate(wal)) == Entries(wal)
  {
    var g := WalSeg(ActiveSeq(wal) + 1, []);
    EntriesJoin(wal, [g]);
    assert [g][1..] == [] && Entries([g]) == [];
  }
}
