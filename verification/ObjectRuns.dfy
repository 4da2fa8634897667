/** Every run of the object-backed log: the steps, what each of them keeps, and so what holds
    in every reachable state. */
module ObjectRuns {
  import opened Bytes
  import opened Seqs
  import opened Record
  import opened Chunks
  import opened Wal
  import opened ObjectStorage

  // ---------------------------------------------------------------- retention

  predicate Drops(r: Ref, total: int, now: int, maxAgeMs: int, maxBytes: int)
  {
    (maxAgeMs > 0 && now - r.uploadedMs > maxAgeMs) || (maxBytes > 0 && total > maxBytes)
  }

  /** How many entries enforceRetention's loop counts, total being the partition's size. */
  function DropCount(rs: seq<Ref>, total: int, now: int, maxAgeMs: int, maxBytes: int): (d: nat)
    ensures d <= |rs|
  {
    if rs == [] || !Drops(rs[0], total, now, maxAgeMs, maxBytes) then 0
    else 1 + DropCount(rs[1..], total - rs[0].length, now, maxAgeMs, maxBytes)
  }

  function RefBytes(rs: seq<Ref>): int
  {
    if rs == [] then 0 else rs[0].length + RefBytes(rs[1..])
  }

  /** The filter prune runs, over the cache and over the store. */
  function Kept(rs: seq<Ref>, cutoff: int): seq<Ref>
  {
    if rs == [] then []
    else (if rs[0].next > cutoff then [rs[0]] else []) + Kept(rs[1..], cutoff)
  }

  function Gone(rs: seq<Ref>, cutoff: int): seq<Ref>
  {
    if rs == [] then []
    else (if rs[0].next <= cutoff then [rs[0]] else []) + Gone(rs[1..], cutoff)
  }

  lemma {:induction false} KeptJoin(rs: seq<Ref>, qs: seq<Ref>, cutoff: int)
    ensures Kept(rs + qs, cutoff) == Kept(rs, cutoff) + Kept(qs, cutoff)
  {
    if rs == [] {
      assert rs + qs == qs;
    } else {
      KeptJoin(rs[1..], qs, cutoff);
      assert (rs + qs)[1..] == rs[1..] + qs;
      Associative(if rs[0].next > cutoff then [rs[0]] else [], Kept(rs[1..], cutoff), Kept(qs, cutoff));
    }
  }

  lemma {:induction false} GoneJoin(rs: seq<Ref>, qs: seq<Ref>, cutoff: int)
    ensures Gone(rs + qs, cutoff) == Gone(rs, cutoff) + Gone(qs, cutoff)
  {
    if rs == [] {
      assert rs + qs == qs;
    } else {
      GoneJoin(rs[1..], qs, cutoff);
      assert (rs + qs)[1..] == rs[1..] + qs;
      Associative(if rs[0].next <= cutoff then [rs[0]] else [], Gone(rs[1..], cutoff), Gone(qs, cutoff));
    }
  }

  predicate KeyIn(rs: seq<Ref>, key: ObjKey)
  {
    exists i | 0 <= i < |rs| :: rs[i].key == key
  }

  /** Referenced: some partition still has an entry into the object. */
  predicate Referenced(refs: map<PartKey, seq<Ref>>, key: ObjKey)
  {
    exists k | k in refs :: KeyIn(refs[k], key)
  }

  /** Deletes the objects of dropped entries that nobody references any more. */
  function Collect(objects: map<ObjKey, seq<byte>>, refs: map<PartKey, seq<Ref>>, gone: seq<Ref>)
    : map<ObjKey, seq<byte>>
  {
    map key | key in objects && (!KeyIn(gone, key) || Referenced(refs, key)) :: objects[key]
  }

  // ---------------------------------------------------------------- the steps

  function PendingBytesOf(s: Node, k: PartKey): int
  {
    if k in s.pending then s.pending[k].bytes else 0
  }

  /** A node that has just opened the logs of these partitions. */
  function Init(id: string, ks: set<PartKey>): Node
  {
    Node(id, map[], 0, 0, Idle, [WalSeg(1, [])],
         map k | k in ks :: [], map[], map k | k in ks :: LogState(0, 0, false, 0),
         map k | k in ks :: [], map k | k in ks :: [])
  }

  /** ObjectLog.Append and Storage.append: write-ahead log first, then the pending buffer. */
  function Append(s: Node, k: PartKey, b: Batch): Node
    requires k in s.logs && k in s.history && s.wal != []
  {
    var l := s.logs[k];
    s.(wal := WalAppend(s.wal, WalEntry(k, b)),
       pending := AppendPending(s.pending, k, b), pendingBytes := s.pendingBytes + |b.bytes|,
       logs := s.logs[k := l.(next := b.next, hwm := if l.hold then l.hwm else b.next)],
       history := s.history[k := s.history[k] + [b]])
  }

  /** ObjectLog.AppendReplica, of a batch that continues the log: the high watermark stays. */
  function AppendReplica(s: Node, k: PartKey, b: Batch): Node
    requires k in s.logs && k in s.history && s.wal != []
  {
    var t := Append(s, k, b);
    t.(logs := t.logs[k := t.logs[k].(hwm := s.logs[k].hwm)])
  }

  /** The first half of upload: take the pending buffer and seal the write-ahead log. */
  function BeginUpload(s: Node): Node
    requires s.wal != []
  {
    if s.pending == map[] then s
    else
      s.(pending := map[], pendingBytes := 0, uploadSeq := s.uploadSeq + 1,
         upload := InFlight(s.pending, s.uploadSeq + 1, ActiveSeq(s.wal)), wal := Rotate(s.wal))
  }

  /** The second half: put one object, commit every partition's entry, trim the log. */
  function FinishUpload(s: Node, order: seq<PartKey>, now: int): Node
    requires s.upload.InFlight? && Enumerates(order, s.upload.snap)
    requires s.upload.snap.Keys <= s.refs.Keys && s.uploaded.Keys == s.refs.Keys
  {
    var snap, key := s.upload.snap, ObjKey(s.id, s.upload.seqNo);
    s.(objects := s.objects[key := ObjectBytes(snap, order)],
       refs := map k | k in s.refs ::
         if k in snap then s.refs[k] + [RefFor(snap, order, k, key, now)] else s.refs[k],
       uploaded := map k | k in s.refs ::
         if k in snap then s.uploaded[k] + [snap[k].batches] else s.uploaded[k],
       wal := After(s.wal, s.upload.sealed), upload := Idle)
  }

  /** A failed put: restore. */
  ghost function FailUpload(s: Node): Node
    requires s.upload.InFlight?
  {
    var pending := Restored(s.upload.snap, s.pending);
    s.(pending := pending, pendingBytes := SumBytes(pending), upload := Idle)
  }

  /** enforceRetention on one partition. */
  function Retain(s: Node, k: PartKey, now: int, maxAgeMs: int, maxBytes: int): Node
    requires k in s.logs && k in s.refs && k in s.uploaded
  {
    var rs := s.refs[k];
    var d := DropCount(rs, RefBytes(rs) + PendingBytesOf(s, k), now, maxAgeMs, maxBytes);
    if d == 0 then s
    else
      var cutoff, l := rs[d - 1].next, s.logs[k];
      var refs := s.refs[k := Kept(rs, cutoff)];
      s.(refs := refs, objects := Collect(s.objects, refs, Gone(rs, cutoff)),
         logs := s.logs[k := l.(earliest := if cutoff > l.earliest then cutoff else l.earliest)],
         uploaded := s.uploaded[k := if d <= |s.uploaded[k]| then s.uploaded[k][d..] else []])
  }

  function RaiseHwm(s: Node, k: PartKey, hwm: int): Node
    requires k in s.logs
  {
    var l := s.logs[k];
    s.(logs := s.logs[k := l.(hwm := Raised(l.hwm, hwm, l.next))])
  }

  function Hold(s: Node, k: PartKey): Node
    requires k in s.logs
  {
    s.(logs := s.logs[k := s.logs[k].(hold := true)])
  }

  // ---------------------------------------------------------------- crash and restart

  /** What replay collects: the pending buffer and each partition's recovered offset range. */
  datatype Recovered = Recovered(buffer: Buffer, recBase: map<PartKey, int>, recNext: map<PartKey, int>)

  function ReplayOne(m: Recovered, e: WalEntry): Recovered
  {
    Recovered(AppendPending(m.buffer, e.key, e.batch),
              if e.key in m.recBase then m.recBase else m.recBase[e.key := e.batch.base],
              m.recNext[e.key := e.batch.next])
  }

  function Replay(es: seq<WalEntry>): Recovered
  {
    if es == [] then Recovered(map[], map[], map[])
    else ReplayOne(Replay(es[..|es| - 1]), es[|es| - 1])
  }

  /** Storage.Log: the offsets a partition is reopened with. */
  function Reopen(rs: seq<Ref>, m: Recovered, k: PartKey): LogState
  {
    var latest := if rs == [] then 0 else rs[|rs| - 1].next;
    var next := if k in m.recNext && m.recNext[k] > latest then m.recNext[k] else latest;
    var earliest := if rs != [] then rs[0].base else if k in m.recBase then m.recBase[k] else next;
    LogState(next, next, false, earliest)
  }

  function Lost(wal: seq<WalSeg>, lost: nat): seq<WalEntry>
    requires wal != [] && lost <= |Active(wal)|
  {
    Active(wal)[|Active(wal)| - lost..]
  }

  /** The batches of partition k whose records a crash loses. */
  function LostOf(s: Node, lost: nat, k: PartKey): seq<Batch>
    requires s.wal != [] && lost <= |Active(s.wal)|
  {
    ForKey(Lost(s.wal, lost), k)
  }

  function Without(bs: seq<Batch>, c: nat): seq<Batch>
  {
    if c <= |bs| then bs[..|bs| - c] else []
  }

  /** The objects once the upload in flight has put its own, as far as it got. */
  function Put(s: Node, put: bool, order: seq<PartKey>): map<ObjKey, seq<byte>>
    requires put ==> s.upload.InFlight? && Enumerates(order, s.upload.snap)
  {
    if put then s.objects[ObjKey(s.id, s.upload.seqNo) := ObjectBytes(s.upload.snap, order)] else s.objects
  }

  /** A crash loses the buffers, the counters, the handles and whatever records at the end of the
      active segment had not reached the disk; the rest of the write-ahead log, the index and the
      objects stay. Then the log is replayed and every partition reopened. A lost record is as if
      never appended. */
  ghost function Crash(s: Node, lost: nat, put: bool, order: seq<PartKey>): Node
    requires s.wal != [] && s.refs.Keys == s.logs.Keys && lost <= |Active(s.wal)|
    requires put ==> s.upload.InFlight? && Enumerates(order, s.upload.snap)
  {
    var wal := CutLast(s.wal, lost);
    var m := Replay(Entries(wal));
    s.(pending := m.buffer, pendingBytes := SumBytes(m.buffer), uploadSeq := 0, upload := Idle,
       wal := Rotate(wal), objects := Put(s, put, order), logs := map k | k in s.logs :: Reopen(s.refs[k], m, k),
       history := map k | k in s.history :: Without(s.history[k], |ForKey(Lost(s.wal, lost), k)|))
  }

  /** A crash after the object was put and the entries of the partitions in done were committed, but
      before the write-ahead log was trimmed: what they point at is replayed as well. */
  ghost function CrashLate(s: Node, order: seq<PartKey>, now: int, done: set<PartKey>, lost: nat): Node
    requires KeysOk(s) && s.wal != [] && lost <= |Active(s.wal)|
    requires s.upload.InFlight? && Enumerates(order, s.upload.snap)
  {
    var f, m := FinishUpload(s, order, now), Replay(Entries(CutLast(s.wal, lost)));
    var refs := map k | k in s.refs :: if k in done then f.refs[k] else s.refs[k];
    Crash(s, lost, true, order).(
      refs := refs, uploaded := map k | k in s.refs :: if k in done then f.uploaded[k] else s.uploaded[k],
      logs := map k | k in s.logs :: Reopen(refs[k], m, k))
  }

  /** What is not in the index. */
  function Tail(s: Node, k: PartKey): seq<Batch>
  {
    Held(Snap(s), k) + Held(s.pending, k)
  }

  /** What is left of that after a crash that loses some records. */
  function Left(s: Node, k: PartKey, lost: nat): seq<Batch>
    requires s.wal != [] && lost <= |Active(s.wal)|
  {
    Without(Tail(s, k), |ForKey(Lost(s.wal, lost), k)|)
  }

  /** The partition has something to take its offsets from: an index entry, a record left in the
      log, or no history to lose. */
  predicate Recoverable(s: Node, k: PartKey, lost: nat)
    requires k in s.refs && k in s.history && s.wal != [] && lost <= |Active(s.wal)|
  {
    || s.refs[k] != [] || Left(s, k, lost) != []
    || Without(s.history[k], |ForKey(Lost(s.wal, lost), k)|) == []
  }

  // ---------------------------------------------------------------- object names

  /** Every entry into the object of this name still reads the same bytes once it holds data. */
  predicate Untouched(objects: map<ObjKey, seq<byte>>, rs: seq<Ref>, key: ObjKey, data: seq<byte>)
  {
    forall i {:trigger rs[i]} | 0 <= i < |rs| && rs[i].key == key ::
      0 <= rs[i].position <= rs[i].position + rs[i].length <= |data|
      && data[rs[i].position..rs[i].position + rs[i].length] == RefSlice(objects, rs[i])
  }

  /** Putting the object of the upload in flight leaves every entry of every partition reading
      what it read: so in particular if no entry has its name. */
  predicate SafeName(s: Node, order: seq<PartKey>)
    requires s.upload.InFlight? && Enumerates(order, s.upload.snap)
  {
    forall k {:trigger UntouchedBy(s, order, k)} | k in s.refs :: UntouchedBy(s, order, k)
  }

  /** A failed rotate: the swapped buffer is restored, and only the name counter has moved. */
  function SealFails(s: Node): Node
  {
    if s.pending == map[] then s else s.(uploadSeq := s.uploadSeq + 1)
  }

  datatype Action =
    | DoAppend(k: PartKey, b: Batch)
    | DoReplica(k: PartKey, b: Batch)
    | DoBegin
    | DoFinish(order: seq<PartKey>, now: int)
    | DoFail
    | DoRetain(k: PartKey, now: int, maxAgeMs: int, maxBytes: int)
    | DoRaise(k: PartKey, hwm: int)
    | DoHold(k: PartKey)
    | DoSealFails
    | DoCrash(lost: nat, put: bool, order: seq<PartKey>)
    | DoCrashLate(lost: nat, order: seq<PartKey>, now: int, done: set<PartKey>)

  // ---------------------------------------------------------------- the invariant

  /** One partition's share of the state: the batches its index entries were written from, the
      snapshot being uploaded, the pending buffer, and its records in the write-ahead log
      segments that are being uploaded and in the later ones. */
  datatype Part = Part(log: LogState, history: seq<Batch>, uploaded: seq<Batch>,
                       snap: seq<Batch>, pending: seq<Batch>, walOld: seq<Batch>, walNew: seq<Batch>)
  {
    /** Everything the partition still holds, oldest first. */
    function Retained(): seq<Batch> { uploaded + (snap + pending) }
  }

  predicate IsSuffix(t: seq<Batch>, h: seq<Batch>)
  {
    |t| <= |h| && h[|h| - |t|..] == t
  }

  /** The index entries, then the snapshot being uploaded, then the pending buffer tile the
      offsets from earliest to the log end and are the end of everything the partition was ever
      given; and the write-ahead log holds exactly what is not in the index yet. */
  predicate PartGood(p: Part)
  {
    && Chain(p.Retained(), p.log.earliest, p.log.next) && Sound(p.Retained())
    && IsSuffix(p.Retained(), p.history) && Chain(p.history, 0, p.log.next)
    && p.walOld == p.snap && p.walNew == p.pending
    && p.log.hwm <= p.log.next
  }

  function Cut(s: Node): int
  {
    if s.upload.InFlight? then s.upload.sealed else -1
  }

  function PartOf(s: Node, k: PartKey): Part
    requires k in s.logs && k in s.history && k in s.uploaded
  {
    Part(s.logs[k], s.history[k], Flat(s.uploaded[k]), Held(Snap(s), k), Held(s.pending, k),
         WalOf(Upto(s.wal, Cut(s)), k), WalOf(After(s.wal, Cut(s)), k))
  }

  predicate PartOk(s: Node, k: PartKey)
  {
    && k in s.logs && k in s.refs && k in s.history && k in s.uploaded
    && PartGood(PartOf(s, k)) && RefsHold(s.objects, s.refs[k], s.uploaded[k])
  }

  predicate KeysOk(s: Node)
  {
    && s.refs.Keys == s.logs.Keys && s.history.Keys == s.logs.Keys && s.uploaded.Keys == s.logs.Keys
    && s.pending.Keys <= s.logs.Keys && Snap(s).Keys <= s.logs.Keys
  }

  /** No entry points at an object this node has yet to write. */
  predicate Fresh(s: Node)
  {
    forall k, i {:trigger s.refs[k][i]} | k in s.refs && 0 <= i < |s.refs[k]| && s.refs[k][i].key.node == s.id ::
      s.refs[k][i].key.seqNo < s.uploadSeq || (s.upload.Idle? && s.refs[k][i].key.seqNo == s.uploadSeq)
  }

  ghost predicate BuffersOk(s: Node)
  {
    && BufferOk(s.pending) && BufferOk(Snap(s)) && s.pendingBytes == SumBytes(s.pending)
    && (s.upload.InFlight? ==> s.upload.seqNo == s.uploadSeq)
    && s.wal != [] && Numbered(s.wal, 0) && Cut(s) < ActiveSeq(s.wal) && WalKeys(s)
  }

  /** The write-ahead log names only partitions the node has. */
  predicate WalKeys(s: Node)
  {
    forall e {:trigger e in Entries(s.wal)} | e in Entries(s.wal) :: e.key in s.logs
  }

  ghost predicate Inv(s: Node)
  {
    && KeysOk(s) && BuffersOk(s)
    && forall k {:trigger PartOk(s, k)} | k in s.logs :: PartOk(s, k)
  }

  /** The node as a whole and one of its partitions, however the others fare. */
  ghost predicate PartInv(s: Node, k: PartKey)
  {
    KeysOk(s) && BuffersOk(s) && PartOk(s, k)
  }

  ghost predicate Enabled(s: Node, a: Action)
    requires KeysOk(s) && s.wal != []
  {
    match a
    case DoAppend(k, b) => k in s.logs && WellFormed(b) && b.base == s.logs[k].next
    case DoReplica(k, b) => k in s.logs && WellFormed(b) && b.base == s.logs[k].next
    case DoBegin => s.upload.Idle?
    case DoFinish(order, now) => s.upload.InFlight? && Enumerates(order, s.upload.snap)
    case DoFail => s.upload.InFlight?
    case DoRetain(k, _, _, _) => k in s.logs
    case DoRaise(k, _) => k in s.logs
    case DoHold(k) => k in s.logs
    case DoSealFails => s.upload.Idle?
    case DoCrash(lost, put, order) =>
      && lost <= |Active(s.wal)|
      && (put ==> s.upload.InFlight? && Enumerates(order, s.upload.snap))
    case DoCrashLate(lost, order, _, _) =>
      lost <= |Active(s.wal)| && s.upload.InFlight? && Enumerates(order, s.upload.snap)
  }

  ghost function Do(s: Node, a: Action): Node
    requires KeysOk(s) && s.wal != [] && Enabled(s, a)
  {
    match a
    case DoAppend(k, b) => Append(s, k, b)
    case DoReplica(k, b) => AppendReplica(s, k, b)
    case DoBegin => BeginUpload(s)
    case DoFinish(order, now) => FinishUpload(s, order, now)
    case DoFail => FailUpload(s)
    case DoRetain(k, now, maxAgeMs, maxBytes) => Retain(s, k, now, maxAgeMs, maxBytes)
    case DoRaise(k, hwm) => RaiseHwm(s, k, hwm)
    case DoHold(k) => Hold(s, k)
    case DoSealFails => SealFails(s)
    case DoCrash(lost, put, order) => Crash(s, lost, put, order)
    case DoCrashLate(lost, order, now, done) => CrashLate(s, order, now, done, lost)
  }

  ghost predicate Next(s: Node, a: Action, t: Node)
  {
    KeysOk(s) && s.wal != [] && Enabled(s, a) && t == Do(s, a)
  }

  /** The put of the upload in flight leaves every entry of partition k reading what it read. */
  predicate UntouchedBy(s: Node, order: seq<PartKey>, k: PartKey)
    requires k in s.refs && s.upload.InFlight? && Enumerates(order, s.upload.snap)
  {
    Untouched(s.objects, s.refs[k], ObjKey(s.id, s.upload.seqNo), ObjectBytes(s.upload.snap, order))
  }

  /** The step does partition k no harm: a put leaves its entries reading what they read, a crash
      leaves it something to take its offsets from, and does not come between the commit of its
      entry and the trim of the write-ahead log. */
  ghost predicate Unharmed(s: Node, a: Action, k: PartKey)
  {
    KeysOk(s) && s.wal != [] && Enabled(s, a) && k in s.logs ==>
      match a
      case DoFinish(order, _) => UntouchedBy(s, order, k)
      case DoCrash(lost, put, order) => Recoverable(s, k, lost) && (put ==> UntouchedBy(s, order, k))
      case DoCrashLate(lost, order, _, done) =>
        !(k in done && k in s.upload.snap) && Recoverable(s, k, lost) && UntouchedBy(s, order, k)
      case _ => true
  }

  // ---------------------------------------------------------------- what each step keeps

  lemma SoundJoin(bs: seq<Batch>, cs: seq<Batch>)
    ensures Sound(bs + cs) <==> Sound(bs) && Sound(cs)
  {
    if Sound(bs) && Sound(cs) {
      forall i | 0 <= i < |bs + cs| ensures WellFormed((bs + cs)[i]) {
        assert if i < |bs| then WellFormed(bs[i]) else WellFormed(cs[i - |bs|]);
      }
    }
    if Sound(bs + cs) {
      forall i | 0 <= i < |bs| ensures WellFormed(bs[i]) {
        assert WellFormed((bs + cs)[i]);
      }
      forall i | 0 <= i < |cs| ensures WellFormed(cs[i]) {
        assert WellFormed((bs + cs)[|bs| + i]);
      }
    }
  }

  lemma Assemble(t: Node)
    requires KeysOk(t) && BuffersOk(t) && forall j | j in t.logs :: PartOk(t, j)
    ensures Inv(t)
  {
  }

  lemma GoodAppend(p: Part, b: Batch, l: LogState)
    requires PartGood(p) && WellFormed(b) && b.base == p.log.next
    requires l.earliest == p.log.earliest && l.next == b.next && l.hwm <= l.next
    ensures PartGood(p.(log := l, history := p.history + [b], pending := p.pending + [b], walNew := p.walNew + [b]))
  {
    var r := p.Retained();
    Associative(p.snap, p.pending, [b]);
    Associative(p.uploaded, p.snap + p.pending, [b]);
    assert [b][1..] == [];
    ChainJoin(r, [b], p.log.earliest, b.base, b.next);
    ChainJoin(p.history, [b], 0, b.base, b.next);
    assert Sound([b]);
    SoundJoin(r, [b]);
    assert (p.history + [b])[|p.history| - |r|..] == p.history[|p.history| - |r|..] + [b];
  }

  lemma AppendBuffer(m: Buffer, k: PartKey, b: Batch)
    requires BufferOk(m)
    ensures BufferOk(AppendPending(m, k, b))
    ensures SumBytes(AppendPending(m, k, b)) == SumBytes(m) + |b.bytes|
  {
    var m' := AppendPending(m, k, b);
    SumUpdate(m, k, m'[k]);
    forall j | j in m' ensures EntryOk(m'[j]) {
      if j != k {
        assert EntryOk(m[j]);
      } else if k in m {
        assert EntryOk(m[k]);
        ConcatJoin(m[k].batches, [b]);
        ConcatOne(b);
      } else {
        ConcatOne(b);
      }
    }
  }

  lemma AppendPartOf(s: Node, k: PartKey, b: Batch, j: PartKey)
    requires KeysOk(s) && k in s.logs && j in s.logs
    requires s.wal != [] && Numbered(s.wal, 0) && Cut(s) < ActiveSeq(s.wal)
    ensures var p, t := PartOf(s, j), Append(s, k, b);
            PartOf(t, j) == if j != k then p
                            else p.(log := t.logs[k], history := p.history + [b],
                                    pending := p.pending + [b], walNew := p.walNew + [b])
  {
    var e := WalEntry(k, b);
    WalAppendAfter(s.wal, e, 0, Cut(s));
    WalAppendOf(After(s.wal, Cut(s)), e, j);
    if j != k {
      assert PartOf(s, j).walNew + [] == PartOf(s, j).walNew;
    }
  }

  lemma AppendGlobals(s: Node, k: PartKey, b: Batch)
    requires KeysOk(s) && BuffersOk(s) && k in s.logs
    ensures var t := Append(s, k, b); KeysOk(t) && BuffersOk(t)
  {
    AppendBuffer(s.pending, k, b);
    WalAppendAfter(s.wal, WalEntry(k, b), 0, Cut(s));
    EntriesAppend(s.wal, WalEntry(k, b));
  }

  lemma AppendPart(s: Node, k: PartKey, b: Batch, j: PartKey)
    requires KeysOk(s) && PartOk(s, j) && k in s.logs && WellFormed(b) && b.base == s.logs[k].next
    requires s.wal != [] && Numbered(s.wal, 0) && Cut(s) < ActiveSeq(s.wal)
    ensures PartOk(Append(s, k, b), j)
  {
    AppendPartOf(s, k, b, j);
    if j == k {
      GoodAppend(PartOf(s, k), b, Append(s, k, b).logs[k]);
    }
  }

  lemma AppendKeeps(s: Node, k: PartKey, b: Batch)
    requires Inv(s) && Enabled(s, DoAppend(k, b))
    ensures Inv(Append(s, k, b))
  {
    var t := Append(s, k, b);
    AppendGlobals(s, k, b);
    forall j | j in t.logs ensures PartOk(t, j) {
      assert PartOk(s, j);
      AppendPart(s, k, b, j);
    }
    Assemble(t);
  }

  // begin

  lemma GoodBegin(p: Part)
    requires PartGood(p) && p.snap == []
    ensures PartGood(p.(snap := p.pending, pending := [], walOld := p.walNew, walNew := []))
  {
    assert p.snap + p.pending == p.pending && p.pending + [] == p.pending;
  }

  lemma BeginPart(s: Node, j: PartKey)
    requires PartOk(s, j) && s.upload.Idle? && s.wal != [] && Numbered(s.wal, 0)
    ensures PartOk(BeginUpload(s), j)
  {
    var p := PartOf(s, j);
    if s.pending != map[] {
      NumberedFrom(s.wal, 0, 0);
      RotateSplit(s.wal, 0);
      WalOne(WalSeg(ActiveSeq(s.wal) + 1, []), j);
      GoodBegin(p);
      assert PartOf(BeginUpload(s), j) == p.(snap := p.pending, pending := [], walOld := p.walNew, walNew := []);
    }
  }

  lemma BeginGlobals(s: Node)
    requires KeysOk(s) && BuffersOk(s) && s.upload.Idle?
    ensures var t := BeginUpload(s); KeysOk(t) && BuffersOk(t)
  {
    NumberedLast(s.wal, 0);
    EntriesRotate(s.wal);
  }

  lemma BeginKeeps(s: Node)
    requires Inv(s) && s.upload.Idle?
    ensures Inv(BeginUpload(s))
  {
    var t := BeginUpload(s);
    BeginGlobals(s);
    forall j | j in t.logs ensures PartOk(t, j) {
      assert PartOk(s, j);
      BeginPart(s, j);
    }
    Assemble(t);
  }

  // fail

  lemma GoodFail(p: Part)
    requires PartGood(p)
    ensures PartGood(p.(snap := [], pending := p.snap + p.pending, walOld := [], walNew := p.walOld + p.walNew))
  {
    assert [] + (p.snap + p.pending) == p.snap + p.pending;
  }

  lemma RestoredOk(snap: Buffer, pending: Buffer)
    requires BufferOk(snap) && BufferOk(pending)
    ensures BufferOk(Restored(snap, pending))
  {
    var m := Restored(snap, pending);
    forall k | k in m ensures EntryOk(m[k]) {
      assert k in snap ==> EntryOk(snap[k]);
      assert k in pending ==> EntryOk(pending[k]);
      if k in snap && k in pending {
        ConcatJoin(snap[k].batches, pending[k].batches);
      }
    }
  }

  lemma HeldRestored(snap: Buffer, pending: Buffer, k: PartKey)
    ensures Held(Restored(snap, pending), k) == Held(snap, k) + Held(pending, k)
  {
    assert Held(snap, k) + [] == Held(snap, k) && [] + Held(pending, k) == Held(pending, k);
  }

  lemma FailPart(s: Node, j: PartKey)
    requires PartOk(s, j) && s.upload.InFlight? && Numbered(s.wal, 0)
    ensures PartOk(FailUpload(s), j)
  {
    var p := PartOf(s, j);
    NumberedFrom(s.wal, 0, 0);
    NumberedSplit(s.wal, 0, s.upload.sealed);
    WalJoin(Upto(s.wal, s.upload.sealed), After(s.wal, s.upload.sealed), j);
    HeldRestored(s.upload.snap, s.pending, j);
    GoodFail(p);
    assert PartOf(FailUpload(s), j)
        == p.(snap := [], pending := p.snap + p.pending, walOld := [], walNew := p.walOld + p.walNew);
  }

  lemma FailGlobals(s: Node)
    requires KeysOk(s) && BuffersOk(s) && s.upload.InFlight?
    ensures var t := FailUpload(s); KeysOk(t) && BuffersOk(t)
  {
    RestoredOk(s.upload.snap, s.pending);
  }

  lemma FailKeeps(s: Node)
    requires Inv(s) && s.upload.InFlight?
    ensures Inv(FailUpload(s))
  {
    var t := FailUpload(s);
    FailGlobals(s);
    forall j | j in t.logs ensures PartOk(t, j) {
      assert PartOk(s, j);
      FailPart(s, j);
    }
    Assemble(t);
  }

  // finish

  lemma GoodFinish(p: Part)
    requires PartGood(p)
    ensures PartGood(p.(uploaded := p.uploaded + p.snap, snap := [], walOld := []))
  {
    assert [] + p.pending == p.pending;
    Associative(p.uploaded, p.snap, p.pending);
  }

  /** Writing an object keeps the entries good exactly if those of its name read the same. */
  lemma PutKeepsIff(objects: map<ObjKey, seq<byte>>, rs: seq<Ref>, cs: seq<seq<Batch>>, key: ObjKey, data: seq<byte>)
    requires RefsHold(objects, rs, cs)
    ensures RefsHold(objects[key := data], rs, cs) <==> Untouched(objects, rs, key, data)
  {
    var new_ := objects[key := data];
    forall i | 0 <= i < |rs| ensures RefHolds(objects, rs[i], cs[i]) && RefSlice(objects, rs[i]) == Concat(cs[i]) {
    }
    if RefsHold(new_, rs, cs) {
      forall i | 0 <= i < |rs| && rs[i].key == key
        ensures 0 <= rs[i].position <= rs[i].position + rs[i].length <= |data|
                && data[rs[i].position..rs[i].position + rs[i].length] == RefSlice(objects, rs[i])
      {
        assert RefHolds(new_, rs[i], cs[i]);
      }
    }
    if Untouched(objects, rs, key, data) {
      forall i | 0 <= i < |rs| ensures RefHolds(new_, rs[i], cs[i]) {
        assert RefHolds(objects, rs[i], cs[i]);
      }
    }
  }

  lemma CommitHoldsIff(objects: map<ObjKey, seq<byte>>, rs: seq<Ref>, cs: seq<seq<Batch>>, r: Ref, c: seq<Batch>)
    requires |rs| == |cs| && RefHolds(objects, r, c)
    ensures RefsHold(objects, rs + [r], cs + [c]) <==> RefsHold(objects, rs, cs)
  {
    if RefsHold(objects, rs, cs) {
      forall i | 0 <= i < |rs| + 1 ensures RefHolds(objects, (rs + [r])[i], (cs + [c])[i]) {
        assert i < |rs| ==> RefHolds(objects, rs[i], cs[i]);
      }
    }
    if RefsHold(objects, rs + [r], cs + [c]) {
      forall i | 0 <= i < |rs| ensures RefHolds(objects, rs[i], cs[i]) {
        assert RefHolds(objects, (rs + [r])[i], (cs + [c])[i]);
      }
    }
  }

  lemma NewRefHolds(s: Node, order: seq<PartKey>, now: int, j: PartKey)
    requires s.upload.InFlight? && Enumerates(order, s.upload.snap) && BufferOk(s.upload.snap) && j in s.upload.snap
    ensures var snap, key := s.upload.snap, ObjKey(s.id, s.upload.seqNo);
            RefHolds(s.objects[key := ObjectBytes(snap, order)], RefFor(snap, order, j, key, now), snap[j].batches)
  {
    assert EntryOk(s.upload.snap[j]);
    RefForHolds(s.upload.snap, order, j, ObjKey(s.id, s.upload.seqNo), now, []);
    assert ObjectBytes(s.upload.snap, order) + [] == ObjectBytes(s.upload.snap, order);
  }

  /** After the put and the commits, a partition's entries hold exactly if the put left its older
      ones reading the same. */
  lemma FinishRefs(s: Node, order: seq<PartKey>, now: int, j: PartKey)
    requires KeysOk(s) && s.upload.InFlight? && Enumerates(order, s.upload.snap)
    requires BufferOk(s.upload.snap) && j in s.logs && RefsHold(s.objects, s.refs[j], s.uploaded[j])
    ensures var t := FinishUpload(s, order, now);
            RefsHold(t.objects, t.refs[j], t.uploaded[j])
            <==> Untouched(s.objects, s.refs[j], ObjKey(s.id, s.upload.seqNo), ObjectBytes(s.upload.snap, order))
  {
    var snap, key := s.upload.snap, ObjKey(s.id, s.upload.seqNo);
    var data := ObjectBytes(snap, order);
    PutKeepsIff(s.objects, s.refs[j], s.uploaded[j], key, data);
    if j in snap {
      NewRefHolds(s, order, now, j);
      CommitHoldsIff(s.objects[key := data], s.refs[j], s.uploaded[j], RefFor(snap, order, j, key, now),
                     snap[j].batches);
    }
  }

  lemma FinishPartOf(s: Node, order: seq<PartKey>, now: int, j: PartKey)
    requires KeysOk(s) && j in s.logs && s.upload.InFlight? && Enumerates(order, s.upload.snap)
    requires Numbered(s.wal, 0)
    ensures var p := PartOf(s, j);
            PartOf(FinishUpload(s, order, now), j) == p.(uploaded := p.uploaded + p.snap, snap := [], walOld := [])
  {
    TrimSplit(s.wal, s.upload.sealed);
    FlatCommit(s.uploaded[j], Held(s.upload.snap, j));
    var p, q := PartOf(s, j), PartOf(FinishUpload(s, order, now), j);
    assert q.uploaded == p.uploaded + p.snap;
    assert q.snap == [] && q.pending == p.pending;
    assert q.walOld == [] && q.walNew == p.walNew;
  }

  lemma TrimSplit(wal: seq<WalSeg>, sealed: nat)
    requires Numbered(wal, 0)
    ensures Upto(After(wal, sealed), -1) == [] && After(After(wal, sealed), -1) == After(wal, sealed)
  {
    NumberedSplit(wal, 0, sealed);
    NumberedFrom(After(wal, sealed), sealed + 1, 0);
  }

  lemma FlatCommit(cs: seq<seq<Batch>>, c: seq<Batch>)
    ensures Flat(cs + [c]) == Flat(cs) + c && Flat(cs) + [] == Flat(cs)
  {
    FlatJoin(cs, [c]);
    FlatOne(c);
  }

  lemma FinishGlobals(s: Node, order: seq<PartKey>, now: int)
    requires KeysOk(s) && BuffersOk(s) && s.upload.InFlight? && Enumerates(order, s.upload.snap)
    ensures var t := FinishUpload(s, order, now); KeysOk(t) && BuffersOk(t)
  {
    var t := FinishUpload(s, order, now);
    NumberedSplit(s.wal, 0, s.upload.sealed);
    NumberedFrom(t.wal, s.upload.sealed + 1, 0);
    AfterActive(s.wal, 0, s.upload.sealed);
    EntriesAfter(s.wal, s.upload.sealed);
  }

  lemma {:induction false} RefForHoldsKey(snap: Buffer, order: seq<PartKey>, k: PartKey, key: ObjKey, now: int)
    requires k in order && forall i | 0 <= i < |order| :: order[i] in snap
    ensures RefFor(snap, order, k, key, now).key == key
  {
    var n := |order| - 1;
    if order[n] != k {
      assert k in order[..n];
      RefForHoldsKey(snap, order[..n], k, key, now);
    }
  }

  lemma FinishPart(s: Node, order: seq<PartKey>, now: int, j: PartKey)
    requires PartInv(s, j) && s.upload.InFlight? && Enumerates(order, s.upload.snap)
    ensures PartOk(FinishUpload(s, order, now), j) <==> UntouchedBy(s, order, j)
  {
    FinishRefs(s, order, now, j);
    FinishPartOf(s, order, now, j);
    GoodFinish(PartOf(s, j));
  }

  /** A finished upload keeps the invariant if and only if its object's name was safe. */
  lemma FinishKeepsIff(s: Node, order: seq<PartKey>, now: int)
    requires Inv(s) && s.upload.InFlight? && Enumerates(order, s.upload.snap)
    ensures Inv(FinishUpload(s, order, now)) <==> SafeName(s, order)
  {
    var t := FinishUpload(s, order, now);
    FinishGlobals(s, order, now);
    forall j | j in t.logs ensures PartOk(t, j) <==> UntouchedBy(s, order, j) {
      assert PartOk(s, j);
      FinishPart(s, order, now, j);
    }
    if SafeName(s, order) {
      Assemble(t);
    }
    if Inv(t) {
      forall k | k in s.refs ensures UntouchedBy(s, order, k) {
        assert PartOk(t, k);
      }
    }
  }
}
