/** The node storage object and the per-partition handles over it. Every method moves the ghost
    node by one step of the state machine, so everything proved of its runs holds here. */
module ObjectBackend {
  import opened Bytes
  import opened Record
  import opened Chunks
  import opened Wal
  import opened ObjectStorage
  import opened ObjectRuns
  import opened ObjectTheorems
  import opened ObjectReads
  import opened ObjectIndex
  import opened ObjectRecovery
  import opened ObjectLives
  import opened WalFiles
  import opened ObjectNode

  // ---------------------------------------------------------------- replay

  /** Storage.replay: puts every record of the write-ahead log back into the pending buffer,
      counts its bytes, and notes each partition's recovered offset range. */
  method ReplayInto(wal: WalLog) returns (m: Recovered, bytes: int, ok: bool)
    requires wal.Valid()
    ensures ok && m == Replay(Entries(wal.segs)) && bytes == SumBytes(m.buffer)
  {
    var rs;
    ghost var es := Entries(wal.segs);
    rs, ok := wal.Replay();
    m, bytes := Recovered(map[], map[], map[]), 0;
    for i := 0 to |rs|
      invariant ok && m == Replay(es[..i]) && bytes == SumBytes(m.buffer)
    {
      EntryFits(wal.segs, wal.files, wal.torn, wal.crc, i);
      ReplayNext(es, i);
      var p := ParseHeader(rs[i].batch);
      if !p.Ok? {
        return m, bytes, false;
      }
      var b := Batch(rs[i].base, p.header.LastOffset() + 1, p.header.maxTimestamp, rs[i].batch);
      var buffer := AppendPending(m.buffer, rs[i].key, b);
      var recBase := if rs[i].key in m.recBase then m.recBase else m.recBase[rs[i].key := rs[i].base];
      m := Recovered(buffer, recBase, m.recNext[rs[i].key := p.header.LastOffset() + 1]);
      bytes := bytes + |rs[i].batch|;
    }
    assert es[..|es|] == es;
  }

  lemma ReplayNext(es: seq<WalEntry>, i: nat)
    requires i < |es|
    ensures Replay(es[..i + 1]) == ReplayOne(Replay(es[..i]), es[i])
    ensures SumBytes(Replay(es[..i + 1]).buffer) == SumBytes(Replay(es[..i]).buffer) + |es[i].batch.bytes|
  {
    assert es[..i + 1][..i] == es[..i] && es[..i + 1][i] == es[i];
    ReplayBuffer(es[..i]);
    AppendBuffer(Replay(es[..i]).buffer, es[i].key, es[i].batch);
  }

  lemma {:induction false} EntryFits(segs: seq<WalSeg>, files: map<nat, seq<byte>>, torn: map<nat, seq<byte>>,
                                     crc: seq<byte> -> nat, i: nat)
    requires i < |Entries(segs)|
    requires forall j {:trigger SegHeld(files, segs[j], torn, crc)} | 0 <= j < |segs| ::
             SegHeld(files, segs[j], torn, crc)
    ensures Fits(Entries(segs)[i])
  {
    assert SegHeld(files, segs[0], torn, crc);
    var n := |segs[0].entries|;
    if i < n {
      assert Fits(segs[0].entries[i]);
    } else {
      forall j | 0 <= j < |segs[1..]| ensures SegHeld(files, segs[1..][j], torn, crc) {
        assert SegHeld(files, segs[j + 1], torn, crc);
      }
      EntryFits(segs[1..], files, torn, crc, i - n);
    }
  }

  // ---------------------------------------------------------------- reading

  lemma {:induction false} TiledAt(cs: seq<seq<Batch>>, from: int, to: int, i: nat) returns (a: int, b: int)
    requires Tiled(cs, from, to) && i < |cs|
    ensures Chain(cs[i], a, b)
  {
    if i == 0 {
      a, b := from, EndOf(cs[0], from);
    } else {
      a, b := TiledAt(cs[1..], EndOf(cs[0], from), to, i - 1);
    }
  }

  /** Each uploaded slice and the pending buffer are runs of well-formed batches. */
  lemma UploadedRun(s: Node, k: PartKey, i: nat) returns (a: int, b: int)
    requires PartInv(s, k) && i < |s.uploaded[k]|
    ensures Chain(s.uploaded[k][i], a, b) && Sound(s.uploaded[k][i])
  {
    assert PartOk(s, k);
    ChunksHold(s, k);
    var cs := PartChunks(s, k);
    assert cs[i] == s.uploaded[k][i] && Sound(cs[i]);
    a, b := TiledAt(cs, s.logs[k].earliest, s.logs[k].next, i);
  }

  lemma PendingRun(s: Node, k: PartKey) returns (a: int, b: int)
    requires PartInv(s, k) && k in s.pending
    ensures Chain(s.pending[k].batches, a, b) && Sound(s.pending[k].batches)
  {
    assert PartOk(s, k);
    ChunksHold(s, k);
    var cs := PartChunks(s, k);
    var n := |cs| - 1;
    assert cs[n] == s.pending[k].batches && Sound(cs[n]);
    a, b := TiledAt(cs, s.logs[k].earliest, s.logs[k].next, n);
  }

  // ---------------------------------------------------------------- one more batch

  /** The step an append takes: a leader's moves the high watermark with it, a follower's does not. */
  ghost function Appended(s: Node, k: PartKey, b: Batch, replica: bool): Node
    requires k in s.logs && k in s.history && s.wal != []
  {
    if replica then ObjectRuns.AppendReplica(s, k, b) else ObjectRuns.Append(s, k, b)
  }

  // ---------------------------------------------------------------- index updates

  lemma CommittedRefs(refs: map<PartKey, seq<Ref>>, snap: Buffer, order: seq<PartKey>, key: ObjKey, now: int,
                      commits: map<PartKey, Ref>)
    requires Enumerates(order, snap) && snap.Keys <= refs.Keys && CommitsFor(commits, snap, order, key, now)
    ensures commits.Keys == snap.Keys
    ensures forall k | k in snap :: commits[k] == RefFor(snap, order, k, key, now)
  {
    forall k ensures k in commits <==> k in snap {
      assert k in commits <==> k in order;
    }
    forall k | k in snap ensures commits[k] == RefFor(snap, order, k, key, now) {
      assert k in order && k in commits;
    }
  }

  lemma FinishedRefs(s: Node, order: seq<PartKey>, now: int, commits: map<PartKey, Ref>)
    requires KeysOk(s) && s.upload.InFlight? && Enumerates(order, s.upload.snap)
    requires CommitsFor(commits, s.upload.snap, order, ObjKey(s.id, s.upload.seqNo), now)
    ensures commits.Keys <= s.refs.Keys
    ensures ObjectRuns.FinishUpload(s, order, now).refs
            == map k | k in s.refs :: if k in commits then s.refs[k] + [commits[k]] else s.refs[k]
  {
    CommittedRefs(s.refs, s.upload.snap, order, ObjKey(s.id, s.upload.seqNo), now, commits);
  }

  /** The state t differs from s in the index, the objects and the write-ahead log only. */
  ghost predicate SameBuffers(s: Node, t: Node)
  {
    t.id == s.id && t.pending == s.pending && t.pendingBytes == s.pendingBytes && t.uploadSeq == s.uploadSeq
  }

  /** Building the object, putting it and committing its entries. */
  method Finished(ghost s: Node, refs: map<PartKey, seq<Ref>>, objects: map<ObjKey, seq<byte>>, id: string,
                  snap: Buffer, seqNo: nat, now: int)
      returns (refs': map<PartKey, seq<Ref>>, objects': map<ObjKey, seq<byte>>, ghost order: seq<PartKey>,
               ghost t: Node)
    requires KeysOk(s) && s.refs == refs && s.objects == objects && s.id == id
    requires s.upload.InFlight? && s.upload.snap == snap && s.upload.seqNo == seqNo
    ensures Enumerates(order, snap) && InNameOrder(order) && t == ObjectRuns.FinishUpload(s, order, now)
    ensures refs' == t.refs && objects' == t.objects && SameBuffers(s, t) && t.wal == After(s.wal, s.upload.sealed)
  {
    var key := ObjKey(id, seqNo);
    var data, commits;
    data, commits, order := BuildObject(snap, key, now);
    FinishedRefs(s, order, now, commits);
    t := ObjectRuns.FinishUpload(s, order, now);
    objects' := objects[key := data];
    refs' := CommitAll(refs, commits);
  }

  /** enforceRetention, total being the partition's size. */
  method Retained(ghost s: Node, refs: map<PartKey, seq<Ref>>, objects: map<ObjKey, seq<byte>>, k: PartKey, total: int,
                  now: int, maxAgeMs: int, maxBytes: int)
      returns (refs': map<PartKey, seq<Ref>>, objects': map<ObjKey, seq<byte>>, cutoff: int, changed: bool,
               ghost t: Node)
    requires KeysOk(s) && s.refs == refs && s.objects == objects && k in s.logs
    requires total == RefBytes(refs[k]) + PendingBytesOf(s, k)
    ensures t == Retain(s, k, now, maxAgeMs, maxBytes)
    ensures refs' == t.refs && objects' == t.objects && SameBuffers(s, t) && t.wal == s.wal
    ensures var d := Dropped(s, k, now, maxAgeMs, maxBytes);
            changed == (d > 0) && (changed ==> cutoff == refs[k][d - 1].next)
  {
    t := Retain(s, k, now, maxAgeMs, maxBytes);
    refs', objects', cutoff, changed := refs, objects, 0, false;
    var dropped := CountDropped(refs[k], total, now, maxAgeMs, maxBytes);
    if dropped > 0 {
      cutoff, changed := refs[k][dropped - 1].next, true;
      var kept, gone := Split(refs[k], cutoff);
      refs' := refs[k := kept];
      objects' := CollectLoop(objects, refs', gone);
    }
  }

  // ---------------------------------------------------------------- the node storage

  /** The fields of a storage show the state s of the machine. */
  ghost predicate Mirrors(s: Node, id: string, pending: Buffer, pendingBytes: int, uploadSeq: nat, wal: seq<WalSeg>,
                          refs: map<PartKey, seq<Ref>>, objects: map<ObjKey, seq<byte>>)
  {
    && s.id == id && s.pending == pending && s.pendingBytes == pendingBytes && s.uploadSeq == uploadSeq
    && s.wal == wal && s.refs == refs && s.objects == objects
  }

  class Storage {
    const id: string
    const wal: WalLog
    var pending: Buffer
    var pendingBytes: int
    var uploadSeq: nat
    const recBase: map<PartKey, int>
    const recNext: map<PartKey, int>
    var refs: map<PartKey, seq<Ref>>
    var objects: map<ObjKey, seq<byte>>
    ghost var node: Node

    ghost predicate Valid()
      reads this, wal
    {
      && WalOk(wal.files, wal.activeSeq, wal.segs, wal.torn, wal.crc)
      && Mirrors(node, id, pending, pendingBytes, uploadSeq, wal.segs, refs, objects)
    }

    /** The offsets Storage.Log seeds a partition's handle with. */
    ghost function Reopened(k: PartKey): LogState
      requires k in refs
      reads this
    {
      ObjectRuns.Reopen(refs[k], Recovered(pending, recBase, recNext), k)
    }

    /** NewStorage on an empty directory and an empty index. */
    constructor Create(id: string, ks: set<PartKey>, crc: seq<byte> -> nat)
      ensures Valid() && fresh(wal) && node == Init(id, ks) && recBase == map[] && recNext == map[]
    {
      this.id := id;
      var w := new WalLog.Create(crc);
      wal := w;
      pending, pendingBytes, uploadSeq, recBase, recNext := map[], 0, 0, map[], map[];
      refs, objects := map k | k in ks :: [], map[];
      node := Init(id, ks);
    }

    /** NewStorage after a crash in state s: the fields are those of the restarted state. */
    constructor Reopen(id: string, w: WalLog, refs: map<PartKey, seq<Ref>>, objects: map<ObjKey, seq<byte>>,
                       ghost s: Node, ghost lost: nat, ghost put: bool, ghost order: seq<PartKey>)
      requires KeysOk(s) && s.wal != [] && lost <= |Active(s.wal)| && w.Valid()
               && w.segs == Rotate(CutLast(s.wal, lost))
      requires put ==> s.upload.InFlight? && Enumerates(order, s.upload.snap)
      requires s.id == id && s.refs == refs && objects == Put(s, put, order)
      ensures Valid() && wal == w && node == Crash(s, lost, put, order)
      ensures var m := Replay(Entries(CutLast(s.wal, lost))); recBase == m.recBase && recNext == m.recNext
    {
      EntriesRotate(CutLast(s.wal, lost));
      var m, bytes, ok := ReplayInto(w);
      this.id, wal, this.refs, this.objects := id, w, refs, objects;
      pending, pendingBytes, uploadSeq, recBase, recNext := m.buffer, bytes, 0, m.recBase, m.recNext;
      node := Crash(s, lost, put, order);
    }

    /** append: write-ahead log first, then the pending buffer. */
    method Append(k: PartKey, b: Batch, ghost replica: bool)
      requires Valid() && k in node.logs && k in node.history && Fits(WalEntry(k, b))
      modifies this`pending, this`pendingBytes, this`node, wal
      ensures Valid() && node == Appended(old(node), k, b, replica)
    {
      ghost var t := Appended(node, k, b, replica);
      wal.Append(WalEntry(k, b));
      pending := AppendPending(pending, k, b);
      pendingBytes := pendingBytes + |b.bytes|;
      node := t;
    }

    /** The first half of upload: swaps the pending buffer out and seals the write-ahead log. */
    method BeginUpload() returns (began: bool, snap: Buffer, seqNo: nat, sealed: nat)
      requires Valid() && node.upload.Idle?
      modifies this`pending, this`pendingBytes, this`uploadSeq, this`node, wal
      ensures Valid() && node == ObjectRuns.BeginUpload(old(node)) && began == (old(pending) != map[])
      ensures began ==> node.upload == InFlight(snap, seqNo, sealed)
    {
      began, snap, seqNo, sealed := false, pending, uploadSeq, 0;
      if pending == map[] {
        return;
      }
      ghost var t := ObjectRuns.BeginUpload(node);
      began := true;
      pending, pendingBytes := map[], 0;
      uploadSeq := uploadSeq + 1;
      seqNo := uploadSeq;
      sealed := wal.Seal();
      node := t;
    }

    /** The second half after a successful put. */
    method FinishUpload(snap: Buffer, seqNo: nat, sealed: nat, now: int) returns (ghost order: seq<PartKey>)
      requires Valid() && KeysOk(node) && node.upload == InFlight(snap, seqNo, sealed) && sealed < wal.activeSeq
      modifies this`refs, this`objects, this`node, wal
      ensures Valid() && Enumerates(order, snap) && InNameOrder(order)
      ensures node == ObjectRuns.FinishUpload(old(node), order, now)
    {
      ghost var t;
      refs, objects, order, t := Finished(node, refs, objects, id, snap, seqNo, now);
      wal.DeleteThrough(sealed);
      node := t;
    }

    /** The second half after a failed one: restore. */
    method FailUpload(snap: Buffer)
      requires Valid() && node.upload.InFlight? && node.upload.snap == snap
      modifies this`pending, this`pendingBytes, this`node
      ensures Valid() && node == ObjectRuns.FailUpload(old(node))
    {
      pending, pendingBytes := RestoreBuffer(snap, pending);
      node := ObjectRuns.FailUpload(node);
    }

    /** upload when the write-ahead log cannot be sealed: what was taken is put back. */
    method UploadUnsealed()
      requires Valid() && node.upload.Idle? && pendingBytes == SumBytes(pending)
      modifies this`pending, this`pendingBytes, this`uploadSeq, this`node
      ensures Valid() && node == SealFails(old(node)) && pending == old(pending) && pendingBytes == old(pendingBytes)
      ensures uploadSeq == old(uploadSeq) + if pending == map[] then 0 else 1
    {
      if pending == map[] {
        return;
      }
      ghost var t := SealFails(node);
      var snap := pending;
      uploadSeq := uploadSeq + 1;
      pending, pendingBytes := RestoreBuffer(snap, map[]);
      assert Restored(snap, map[]) == snap;
      node := t;
    }

    /** upload with nothing in between; putOk is what the object store answers. */
    method Upload(now: int, putOk: bool) returns (ok: bool, ghost order: seq<PartKey>)
      requires Valid() && KeysOk(node) && node.upload.Idle?
      modifies this`pending, this`pendingBytes, this`uploadSeq, this`refs, this`objects, this`node, wal
      ensures Valid() && node.upload.Idle? && ok == (putOk || old(pending) == map[])
      ensures if old(pending) == map[] then node == old(node)
              else var began := ObjectRuns.BeginUpload(old(node));
                   if putOk then
                     && Enumerates(order, old(pending)) && InNameOrder(order)
                     && node == ObjectRuns.FinishUpload(began, order, now)
                   else node == ObjectRuns.FailUpload(began)
    {
      ok, order := true, [];
      var began, snap, seqNo, sealed := BeginUpload();
      if began {
        if putOk {
          order := FinishUpload(snap, seqNo, sealed, now);
        } else {
          FailUpload(snap);
          ok := false;
        }
      }
    }

    method Size(k: PartKey) returns (total: int)
      requires Valid() && k in node.refs
      ensures total == RefBytes(refs[k]) + PendingBytesOf(node, k)
    {
      total := TotalLength(refs[k]);
      if k in pending {
        total := total + pending[k].bytes;
      }
    }

    /** enforceRetention. */
    method EnforceRetention(k: PartKey, now: int, maxAgeMs: int, maxBytes: int) returns (cutoff: int, changed: bool)
      requires Valid() && KeysOk(node) && k in node.logs
      modifies this`refs, this`objects, this`node
      ensures Valid() && node == Retain(old(node), k, now, maxAgeMs, maxBytes)
      ensures var d := Dropped(old(node), k, now, maxAgeMs, maxBytes);
              changed == (d > 0) && (changed ==> cutoff == old(refs[k])[d - 1].next)
    {
      var total := Size(k);
      ghost var t;
      refs, objects, cutoff, changed, t := Retained(node, refs, objects, k, total, now, maxAgeMs, maxBytes);
      node := t;
    }

    /** read: the pending buffer if it holds the offset, otherwise the slice of the object the
        index points at. */
    method Read(k: PartKey, off: int, maxBytes: int) returns (out: seq<byte>)
      requires Valid() && PartInv(node, k) && node.logs[k].earliest <= off < node.logs[k].next
      ensures ObjectRead(node, k, off, maxBytes) == Data(out)
    {
      if k in pending && |pending[k].batches| > 0 && off >= pending[k].base {
        var data := ConcatLoop(pending[k].batches);
        ghost var a, b := PendingRun(node, k);
        out := SliceBatches(data, off, maxBytes, pending[k].batches, a, b);
        return;
      }
      EntriesTile(node, k);
      TilesOrdered(refs[k], node.logs[k].earliest, IndexEnd(node, k));
      var i := RefForOffset(refs[k], off);
      if i < 0 {
        return [];
      }
      ghost var c := node.uploaded[k][i];
      assert RefHolds(objects, refs[k][i], c);
      ghost var a, b := UploadedRun(node, k, i);
      out := SliceBatches(RefSlice(objects, refs[k][i]), off, maxBytes, c, a, b);
    }
  }

  /** sliceBatches. */
  method SliceBatches(data: seq<byte>, off: int, maxBytes: int, ghost bs: seq<Batch>, ghost from: int, ghost to: int)
      returns (out: seq<byte>)
    requires Sound(bs) && Chain(bs, from, to) && data == Concat(bs)
    ensures out == Concat(Slice(bs, off, maxBytes))
  {
    PosEnds(bs);
    assert bs[0..] == bs;
    out := Gather(data, 0, off, maxBytes, bs, 0, from, to);
  }

  // ---------------------------------------------------------------- the partition handle

  class ObjectLog {
    const storage: Storage
    const key: PartKey
    var nextOffset: int
    var highWatermark: int
    var holdHWM: bool
    var earliest: int

    function State(): LogState
      reads this
    {
      LogState(nextOffset, highWatermark, holdHWM, earliest)
    }

    ghost predicate Valid()
      reads this, storage, storage.wal
    {
      storage.Valid() && KeysOk(storage.node) && key in storage.node.logs && storage.node.logs[key] == State()
    }

    /** Storage.Log: offsets from the index and the replayed records. */
    constructor Open(st: Storage, k: PartKey)
      requires k in st.refs
      ensures storage == st && key == k
      ensures State() == st.Reopened(k)
      ensures st.Valid() && KeysOk(st.node) && k in st.node.logs && st.node.logs[k] == st.Reopened(k) ==> Valid()
    {
      storage, key, holdHWM := st, k, false;
      var rs := st.refs[k];
      var next := 0;
      if rs != [] {
        next := rs[|rs| - 1].next;
      }
      if k in st.recNext && st.recNext[k] > next {
        next := st.recNext[k];
      }
      var first := next;
      if rs != [] {
        first := rs[0].base;
      } else if k in st.recBase {
        first := st.recBase[k];
      }
      nextOffset, highWatermark, earliest := next, next, first;
    }

    /** Append. */
    method Append(batch: array<byte>, crc: seq<byte> -> nat) returns (base: int, ok: bool)
      requires Valid() && FitsInt(nextOffset, 8) && batch.Length >= 21
      requires ParseHeader(batch[..]).Ok? ==> IsBatch(batch[..])
      requires Encodable(WalRecord(key, nextOffset, Assigned(batch[..], nextOffset, crc)))
      modifies this, storage, storage.wal, batch
      ensures Valid() && batch[..] == Assigned(old(batch[..]), old(nextOffset), crc)
      ensures ok <==> ParseHeader(old(batch[..])).Ok?
      ensures ok ==> && IsBatch(batch[..]) && base == old(nextOffset)
                     && storage.node == ObjectRuns.Append(old(storage.node), key, ToBatch(batch[..]))
                     && nextOffset == ToBatch(batch[..]).next
                     && highWatermark == (if old(holdHWM) then old(highWatermark) else nextOffset)
      ensures !ok ==> storage.node == old(storage.node) && State() == old(State())
      ensures holdHWM == old(holdHWM) && earliest == old(earliest)
    {
      base := nextOffset;
      ghost var given := batch[..];
      AssignOffset(batch, base, crc);
      if batch.Length >= HEADER_SIZE {
        AssignedIsBatch(given, base, crc);
      }
      var p := ParseHeader(batch[..]);
      ok := p.Ok?;
      if ok {
        Commit(ToBatch(batch[..]));
      }
    }

    /** The rest of Append, once the batch carries its offset. */
    method Commit(b: Batch)
      requires Valid() && Fits(WalEntry(key, b))
      modifies this`nextOffset, this`highWatermark, storage, storage.wal
      ensures Valid() && storage.node == ObjectRuns.Append(old(storage.node), key, b)
      ensures nextOffset == b.next && highWatermark == if holdHWM then old(highWatermark) else nextOffset
    {
      storage.Append(key, b, false);
      nextOffset := b.next;
      if !holdHWM {
        highWatermark := b.next;
      }
    }

    /** AppendReplica: duplicates are skipped, gaps refused, the high watermark stays. */
    method AppendReplica(batch: seq<byte>) returns (leo: int, ok: bool)
      requires Valid() && (ParseHeader(batch).Ok? ==> IsBatch(batch))
      requires IsBatch(batch) ==> Fits(WalEntry(key, ToBatch(batch)))
      modifies this, storage, storage.wal
      ensures Valid() && highWatermark == old(highWatermark)
      ensures ok <==> IsBatch(batch) && ToBatch(batch).base <= old(nextOffset)
      ensures storage.node == if IsBatch(batch) && ToBatch(batch).base == old(nextOffset)
                              then ObjectRuns.AppendReplica(old(storage.node), key, ToBatch(batch))
                              else old(storage.node)
      ensures nextOffset == (if IsBatch(batch) && ToBatch(batch).base == old(nextOffset) then ToBatch(batch).next
                             else old(nextOffset))
      ensures holdHWM == old(holdHWM) && earliest == old(earliest) && (ParseHeader(batch).Ok? ==> leo == nextOffset)
    {
      leo, ok := 0, false;
      if !ParseHeader(batch).Ok? {
        return;
      }
      var b := ToBatch(batch);
      if b.base < nextOffset {
        return nextOffset, true;
      }
      if b.base > nextOffset {
        return nextOffset, false;
      }
      storage.Append(key, b, true);
      nextOffset := b.next;
      leo, ok := nextOffset, true;
    }

    /** SetHighWatermark. */
    method SetHighWatermark(hwm: int)
      requires Valid()
      modifies this`highWatermark, storage`node
      ensures Valid() && storage.node == RaiseHwm(old(storage.node), key, hwm)
      ensures highWatermark == Raised(old(highWatermark), hwm, nextOffset)
    {
      var h := if hwm > nextOffset then nextOffset else hwm;
      if h > highWatermark {
        highWatermark := h;
      }
      storage.node := RaiseHwm(storage.node, key, hwm);
    }

    /** HoldHighWatermark. */
    method HoldHighWatermark()
      requires Valid()
      modifies this`holdHWM, storage`node
      ensures Valid() && storage.node == Hold(old(storage.node), key) && holdHWM
    {
      holdHWM := true;
      storage.node := Hold(storage.node, key);
    }

    /** Read. */
    method Read(offset: int, maxBytes: int) returns (r: ReadResult)
      requires Valid() && PartInv(storage.node, key)
      ensures r == if InSnapshot(storage.node, key, offset) then Data([])
                   else BackendRead(PartChunks(storage.node, key), earliest, nextOffset, offset, maxBytes)
    {
      ObjectReadExact(storage.node, key, offset, maxBytes);
      if offset == nextOffset {
        return Data([]);
      }
      if offset > nextOffset || offset < earliest {
        return OutOfRange;
      }
      var out := storage.Read(key, offset, maxBytes);
      r := Data(out);
    }

    /** EnforceRetention. */
    method EnforceRetention(now: int, maxAgeMs: int, maxBytes: int)
      requires Valid()
      modifies this`earliest, storage`refs, storage`objects, storage`node
      ensures Valid() && storage.node == Retain(old(storage.node), key, now, maxAgeMs, maxBytes)
    {
      var cutoff, changed := storage.EnforceRetention(key, now, maxAgeMs, maxBytes);
      if changed && cutoff > earliest {
        earliest := cutoff;
      }
    }
  }

  // ---------------------------------------------------------------- a crash

  /** What a crash that lost some records leaves of partition k. */
  ghost predicate PartRestored(s: Node, t: Node, k: PartKey, lost: nat)
    requires s.wal != [] && lost <= |Active(s.wal)| && k in s.refs && k in s.uploaded && k in s.history && k in s.logs
  {
    && k in t.logs && Held(t.pending, k) == Left(s, k, lost) <= Tail(s, k)
    && (if s.refs[k] != [] || Left(s, k, lost) != []
        then t.logs[k].next == EndOf(Left(s, k, lost), IndexEnd(s, k)) && t.logs[k].earliest == s.logs[k].earliest
        else t.logs[k].next == 0 && t.logs[k].earliest == 0)
  }

  lemma CrashRestores(s: Node, k: PartKey, lost: nat, put: bool, order: seq<PartKey>)
    requires PartInv(s, k) && lost <= |Active(s.wal)|
    requires put ==> s.upload.InFlight? && Enumerates(order, s.upload.snap)
    ensures PartRestored(s, Crash(s, lost, put, order), k, lost)
  {
    CrashPending(s, k, lost, put, order);
    CrashOffsets(s, k, lost, put, order);
  }

  /** A crash that cuts the active file of the write-ahead log at byte c, and the next life over
      what is left: each partition that was in good order gets back a prefix of its un-uploaded
      batches and the offsets to match. */
  method Restart(st: Storage, c: nat, objects: map<ObjKey, seq<byte>>, ghost put: bool, ghost order: seq<PartKey>)
      returns (next: Storage, ghost lost: nat)
    requires st.Valid() && KeysOk(st.node) && BuffersOk(st.node)
    requires st.wal.activeSeq in st.wal.files && c <= |st.wal.files[st.wal.activeSeq]|
    requires put ==> st.node.upload.InFlight? && Enumerates(order, st.node.upload.snap)
    requires objects == Put(st.node, put, order)
    ensures lost <= |Active(st.node.wal)| && next.Valid() && next.node == Crash(st.node, lost, put, order)
    ensures next.refs == st.refs && forall k | k in st.node.logs :: next.node.logs[k] == next.Reopened(k)
    ensures forall k | PartOk(st.node, k) :: PartRestored(st.node, next.node, k, lost)
  {
    ghost var s, tail := st.node, [];
    lost, tail := CutOnDisk(st.wal.files, st.wal.segs, st.wal.torn, st.wal.crc, c);
    CutNumbered(s.wal, lost, 0);
    EntriesCut(s.wal, lost);
    var n := st.wal.activeSeq;
    var disk := st.wal.files[n := st.wal.files[n][..c]];
    var w := new WalLog.Open(disk, st.wal.crc, CutLast(s.wal, lost), st.wal.torn[n := tail]);
    next := new Storage.Reopen(st.id, w, st.refs, objects, s, lost, put, order);
    forall k | PartOk(s, k) ensures PartRestored(s, next.node, k, lost) {
      CrashRestores(s, k, lost, put, order);
    }
  }

  /** The handle of a partition in the next life. */
  method Resume(st: Storage, c: nat, objects: map<ObjKey, seq<byte>>, k: PartKey, ghost put: bool,
                ghost order: seq<PartKey>)
      returns (log: ObjectLog, ghost lost: nat)
    requires st.Valid() && KeysOk(st.node) && BuffersOk(st.node) && k in st.node.logs
    requires st.wal.activeSeq in st.wal.files && c <= |st.wal.files[st.wal.activeSeq]|
    requires put ==> st.node.upload.InFlight? && Enumerates(order, st.node.upload.snap)
    requires objects == Put(st.node, put, order)
    ensures lost <= |Active(st.node.wal)| && log.Valid() && log.key == k
    ensures log.storage.node == Crash(st.node, lost, put, order)
    ensures PartOk(st.node, k) ==>
              && PartRestored(st.node, log.storage.node, k, lost)
              && (PartOk(log.storage.node, k) <==>
                    Recoverable(st.node, k, lost) && (put ==> UntouchedBy(st.node, order, k)))
  {
    ghost var s := st.node;
    var next;
    next, lost := Restart(st, c, objects, put, order);
    CrashGlobals(s, lost, put, order);
    if PartOk(s, k) {
      CrashPartIff(s, lost, put, order, k);
    }
    log := new ObjectLog.Open(next, k);
  }

  // ---------------------------------------------------------------- any sequence of operations

  datatype Op =
    | OpAppend(k: PartKey, b: Batch, replica: bool)
    | OpUpload(now: int, putOk: bool)
    | OpUnsealed
    | OpRetain(k: PartKey, now: int, maxAgeMs: int, maxBytes: int)

  /** What a caller must respect: offsets continue the partition's log, and records can be framed. */
  ghost predicate Allowed(s: Node, op: Op)
  {
    match op
    case OpAppend(k, b, _) => k in s.logs && b.base == s.logs[k].next && Fits(WalEntry(k, b))
    case OpUpload(_, _) => s.upload.Idle?
    case OpUnsealed => s.upload.Idle?
    case OpRetain(k, _, _, _) => k in s.logs
  }

  /** The operation does partition k no harm: a put leaves its entries reading what they read. */
  ghost predicate OpSpares(s: Node, op: Op, order: seq<PartKey>, k: PartKey)
    requires s.wal != [] && (s.upload.Idle? && s.pending != map[] && op.OpUpload? && op.putOk
                             ==> Enumerates(order, s.pending))
  {
    k in s.refs && s.upload.Idle? && s.pending != map[] && op.OpUpload? && op.putOk ==>
      UntouchedBy(ObjectRuns.BeginUpload(s), order, k)
  }

  /** Performing one operation keeps the storage's fields and the machine in step, the node as a
      whole in order, and each partition in good order that was and that the operation spares, in
      a first life and in any later one. */
  method Perform(st: Storage, op: Op) returns (ghost order: seq<PartKey>)
    requires st.Valid() && KeysOk(st.node) && BuffersOk(st.node) && Allowed(st.node, op)
    modifies st, st.wal
    ensures st.Valid() && KeysOk(st.node) && BuffersOk(st.node)
    ensures op.OpUpload? && op.putOk && old(st.node).pending != map[] ==> Enumerates(order, old(st.node).pending)
    ensures forall k | PartOk(old(st.node), k) && OpSpares(old(st.node), op, order, k) :: PartOk(st.node, k)
  {
    ghost var s := st.node;
    order := [];
    match op {
      case OpAppend(k, b, replica) =>
        st.Append(k, b, replica);
        Appends(s, k, b, replica);
      case OpUpload(now, putOk) =>
        BeginGlobals(s);
        var ok;
        ok, order := st.Upload(now, putOk);
        UploadKeeps(s, st.node, order, now, putOk);
      case OpUnsealed =>
        st.UploadUnsealed();
        forall j | PartOk(s, j) ensures PartOk(st.node, j) {
          SealFailsPart(s, j);
        }
      case OpRetain(k, now, maxAgeMs, maxBytes) =>
        var cutoff, changed := st.EnforceRetention(k, now, maxAgeMs, maxBytes);
        RetainGlobals(s, k, now, maxAgeMs, maxBytes);
        forall j | PartOk(s, j) ensures PartOk(st.node, j) {
          RetainPart(s, k, now, maxAgeMs, maxBytes, j);
        }
    }
  }

  lemma Appends(s: Node, k: PartKey, b: Batch, replica: bool)
    requires KeysOk(s) && BuffersOk(s) && Allowed(s, OpAppend(k, b, replica))
    ensures var t := Appended(s, k, b, replica);
            KeysOk(t) && BuffersOk(t) && forall j | PartOk(s, j) :: PartOk(t, j)
  {
    AppendGlobals(s, k, b);
    ReplicaGlobals(s, k, b);
    forall j | PartOk(s, j) ensures PartOk(Appended(s, k, b, replica), j) {
      AppendPart(s, k, b, j);
      ReplicaPart(s, k, b, j);
    }
  }

  lemma UploadKeeps(s: Node, t: Node, order: seq<PartKey>, now: int, putOk: bool)
    requires KeysOk(s) && BuffersOk(s) && s.upload.Idle? && KeysOk(ObjectRuns.BeginUpload(s))
    requires if s.pending == map[] then t == s
             else var began := ObjectRuns.BeginUpload(s);
                  if putOk then Enumerates(order, s.pending) && t == ObjectRuns.FinishUpload(began, order, now)
                  else t == ObjectRuns.FailUpload(began)
    ensures KeysOk(t) && BuffersOk(t)
    ensures forall k | PartOk(s, k) && OpSpares(s, OpUpload(now, putOk), order, k) :: PartOk(t, k)
  {
    if s.pending != map[] {
      var began := ObjectRuns.BeginUpload(s);
      BeginGlobals(s);
      if putOk {
        FinishGlobals(began, order, now);
      } else {
        FailGlobals(began);
      }
      forall k | PartOk(s, k) && OpSpares(s, OpUpload(now, putOk), order, k) ensures PartOk(t, k) {
        BeginPart(s, k);
        if putOk {
          FinishPart(began, order, now, k);
        } else {
          FailPart(began, k);
        }
      }
    }
  }
}
