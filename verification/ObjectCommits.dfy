/** A crash between the index commits of an upload and the trim of the write-ahead log: the snapshot
    is in the index and is replayed as well. What readers see of it, and what it costs. */
module ObjectCommits {
  import opened Record
  import opened Wal
  import opened ObjectStorage
  import opened ObjectRuns
  import opened ObjectTheorems
  import opened ObjectReads
  import opened ObjectRecovery

  /** The records a crash can lose were written after the log was sealed. */
  lemma LostInRest(wal: seq<WalSeg>, cut: int, lost: nat, k: PartKey)
    requires wal != [] && Numbered(wal, 0) && cut < ActiveSeq(wal) && lost <= |Active(wal)|
    ensures |ForKey(Lost(wal, lost), k)| <= |WalOf(After(wal, cut), k)|
  {
    AfterActive(wal, 0, cut);
    var rest := After(wal, cut);
    EntriesCut(rest, lost);
    ForKeyJoin(Entries(CutLast(rest, lost)), Lost(rest, lost), k);
  }

  lemma LostAfterSeal(s: Node, k: PartKey, lost: nat)
    requires PartInv(s, k) && lost <= |Active(s.wal)|
    ensures |LostOf(s, lost, k)| <= |Held(s.pending, k)|
  {
    assert PartOk(s, k);
    LostInRest(s.wal, Cut(s), lost, k);
    assert PartOf(s, k).walNew == Held(s.pending, k);
  }

  /** So what is left of a partition in the snapshot begins with its snapshot. */
  lemma SnapshotIsLeft(s: Node, k: PartKey, lost: nat)
    requires PartInv(s, k) && k in Snap(s) && lost <= |Active(s.wal)|
    ensures var left, snap := Left(s, k, lost), Snap(s)[k];
            && snap.batches <= left && snap.batches != []
            && left[0].base == snap.base < snap.next <= left[|left| - 1].next
  {
    LostAfterSeal(s, k, lost);
    Conservation(s, k);
    assert EntryOk(Snap(s)[k]);
    FrontIsLeft(Snap(s)[k].batches, Held(s.pending, k), |LostOf(s, lost, k)|, IndexEnd(s, k), s.logs[k].next);
  }

  lemma FrontIsLeft(front: seq<Batch>, rest: seq<Batch>, c: nat, mid: int, next: int)
    requires front != [] && c <= |rest| && Chain(front + rest, mid, next)
    ensures var left := Without(front + rest, c);
            && front <= left && left[0] == front[0]
            && front[0].base < front[|front| - 1].next <= left[|left| - 1].next
  {
    var all, left := front + rest, Without(front + rest, c);
    assert left == all[..|all| - c] && left[..|front|] == front;
    ChainBounds(all, mid, next);
    assert all[|front| - 1] == front[|front| - 1];
    if |left| > |front| {
      ChainOrdered(all, mid, next, |front| - 1, |left| - 1);
    }
    if |front| > 1 {
      ChainOrdered(all, mid, next, 0, |front| - 1);
    }
  }

  lemma {:induction false} RefForRange(snap: Buffer, order: seq<PartKey>, k: PartKey, key: ObjKey, now: int)
    requires k in order && forall i | 0 <= i < |order| :: order[i] in snap
    ensures k in snap && RefFor(snap, order, k, key, now).base == snap[k].base
    ensures RefFor(snap, order, k, key, now).next == snap[k].next
  {
    var n := |order| - 1;
    if order[n] != k {
      RefForRange(snap, order[..n], k, key, now);
    }
  }

  /** An entry for records that are replayed as well does not change where a partition restarts. */
  lemma ReopenSame(rs: seq<Ref>, e: Ref, m: Recovered, k: PartKey)
    requires k in m.recBase && k in m.recNext && e.base == m.recBase[k] && 0 <= e.next <= m.recNext[k]
    requires rs != [] ==> rs[|rs| - 1].next <= m.recNext[k]
    ensures Reopen(rs + [e], m, k) == Reopen(rs, m, k)
  {
  }

  lemma {:induction false} RefIndexBefore(rs: seq<Ref>, r: Ref, off: int)
    requires off < r.base
    ensures RefIndex(rs + [r], off) == RefIndex(rs, off)
  {
    if rs == [] {
      assert [r][1..] == [];
    } else {
      assert (rs + [r])[1..] == rs[1..] + [r];
      RefIndexBefore(rs[1..], r, off);
    }
  }

  /** Two nodes that agree on a partition but for an entry e over records that are pending too. */
  predicate AlikeBut(u: Node, c: Node, k: PartKey, twice: bool, e: Ref, b: seq<Batch>)
  {
    && k in c.logs && k in c.refs && k in c.uploaded && |c.uploaded[k]| == |c.refs[k]|
    && k in u.logs && k in u.refs && k in u.uploaded && u.logs[k] == c.logs[k] && u.pending == c.pending
    && u.refs[k] == (if twice then c.refs[k] + [e] else c.refs[k])
    && u.uploaded[k] == (if twice then c.uploaded[k] + [b] else c.uploaded[k])
    && (twice ==> k in c.pending && c.pending[k].batches != [] && c.pending[k].base == e.base)
  }

  /** A read finds the same: offsets from there on are read from the pending buffer. */
  lemma ReadSame(u: Node, c: Node, k: PartKey, twice: bool, e: Ref, b: seq<Batch>, off: int, maxBytes: int)
    requires AlikeBut(u, c, k, twice, e, b)
    ensures |u.uploaded[k]| == |u.refs[k]| && ObjectRead(u, k, off, maxBytes) == ObjectRead(c, k, off, maxBytes)
  {
    if twice && off < e.base {
      RefIndexBefore(c.refs[k], e, off);
    }
  }

  /** u and c restart partition k from the same replay, u with one entry more if twice. */
  predicate Restarts(u: Node, c: Node, rs: seq<Ref>, cs: seq<seq<Batch>>, m: Recovered, k: PartKey, twice: bool, e: Ref,
                     b: seq<Batch>)
  {
    && u.pending == c.pending == m.buffer && u.upload == c.upload == Idle
    && u.history == c.history && u.wal == c.wal && u.objects == c.objects
    && k in c.refs && k in c.uploaded && k in c.logs && k in u.refs && k in u.uploaded && k in u.logs
    && c.refs[k] == rs && c.uploaded[k] == cs && c.logs[k] == Reopen(rs, m, k)
    && u.refs[k] == (if twice then rs + [e] else rs) && u.uploaded[k] == (if twice then cs + [b] else cs)
    && u.logs[k] == Reopen(u.refs[k], m, k)
  }

  lemma RestartsAlike(u: Node, c: Node, rs: seq<Ref>, cs: seq<seq<Batch>>, m: Recovered, k: PartKey, twice: bool,
                      e: Ref, b: seq<Batch>)
    requires Restarts(u, c, rs, cs, m, k, twice, e, b) && |cs| == |rs|
    requires twice ==> && k in m.buffer && m.buffer[k].batches != [] && m.buffer[k].base == e.base
                       && Reopen(rs + [e], m, k) == Reopen(rs, m, k)
    ensures AlikeBut(u, c, k, twice, e, b)
  {
  }

  /** The two restarts, as far as partition k can see. */
  lemma LateParts(s: Node, order: seq<PartKey>, now: int, done: set<PartKey>, lost: nat, k: PartKey, e: Ref,
                  b: seq<Batch>)
    requires KeysOk(s) && s.wal != [] && lost <= |Active(s.wal)| && k in s.logs
    requires s.upload.InFlight? && Enumerates(order, s.upload.snap)
    requires k in s.upload.snap ==> e == EntryOf(s, order, now, k) && b == s.upload.snap[k].batches
    ensures Restarts(CrashLate(s, order, now, done, lost), Crash(s, lost, true, order), s.refs[k], s.uploaded[k],
                     Replay(Entries(CutLast(s.wal, lost))), k, k in done && k in s.upload.snap, e, b)
  {
  }

  function EntryOf(s: Node, order: seq<PartKey>, now: int, k: PartKey): Ref
    requires s.upload.InFlight? && Enumerates(order, s.upload.snap) && k in s.upload.snap
  {
    RefFor(s.upload.snap, order, k, ObjKey(s.id, s.upload.seqNo), now)
  }

  /** What replay recovers of a partition in the snapshot. */
  lemma SnapshotReplayed(s: Node, k: PartKey, lost: nat)
    requires PartInv(s, k) && k in Snap(s) && lost <= |Active(s.wal)|
    ensures var m, snap := Replay(Entries(CutLast(s.wal, lost))), Snap(s)[k];
            && k in m.buffer && EntryOk(m.buffer[k]) && m.buffer[k].base == snap.base
            && k in m.recBase && m.recBase[k] == snap.base
            && k in m.recNext && 0 <= snap.base < snap.next <= m.recNext[k]
            && k in s.refs && (s.refs[k] != [] ==> s.refs[k][|s.refs[k]| - 1].next == snap.base)
  {
    SnapshotIsLeft(s, k, lost);
    LeftInLog(s, k, lost);
    ReplayPart(Entries(CutLast(s.wal, lost)), k);
    ReplayBuffer(Entries(CutLast(s.wal, lost)));
    SnapshotFollowsIndex(s, k);
  }

  lemma SnapshotFollowsIndex(s: Node, k: PartKey)
    requires PartInv(s, k) && k in Snap(s)
    ensures k in s.refs && 0 <= Snap(s)[k].base
    ensures s.refs[k] != [] ==> s.refs[k][|s.refs[k]| - 1].next == Snap(s)[k].base
  {
    Conservation(s, k);
    HistoryNonNegative(s, k);
    assert EntryOk(Snap(s)[k]);
    TilesBounds(s.refs[k], s.logs[k].earliest, IndexEnd(s, k));
    if s.refs[k] != [] {
      EndsOfTiles(s.refs[k], s.logs[k].earliest, IndexEnd(s, k));
    }
  }

  lemma LateAlike(s: Node, order: seq<PartKey>, now: int, done: set<PartKey>, lost: nat, k: PartKey, e: Ref,
                  b: seq<Batch>, u: Node, c: Node)
    requires PartInv(s, k) && lost <= |Active(s.wal)| && s.upload.InFlight? && Enumerates(order, s.upload.snap)
    requires k in s.upload.snap ==> e == EntryOf(s, order, now, k) && b == s.upload.snap[k].batches
    requires Restarts(u, c, s.refs[k], s.uploaded[k], Replay(Entries(CutLast(s.wal, lost))), k,
                      k in done && k in s.upload.snap, e, b)
    ensures AlikeBut(u, c, k, k in done && k in s.upload.snap, e, b)
  {
    assert PartOk(s, k);
    var m := Replay(Entries(CutLast(s.wal, lost)));
    if k in done && k in s.upload.snap {
      RefForRange(s.upload.snap, order, k, ObjKey(s.id, s.upload.seqNo), now);
      SnapshotReplayed(s, k, lost);
      ReopenSame(s.refs[k], e, m, k);
    }
    RestartsAlike(u, c, s.refs[k], s.uploaded[k], m, k, k in done && k in s.upload.snap, e, b);
  }

  /** Such a crash is invisible to readers: every partition comes back with the offsets, and every
      read with the bytes, of a crash just before the first entry was committed. */
  lemma LateInvisible(s: Node, order: seq<PartKey>, now: int, done: set<PartKey>, lost: nat,
                           k: PartKey, off: int, maxBytes: int)
    requires PartInv(s, k) && lost <= |Active(s.wal)| && s.upload.InFlight? && Enumerates(order, s.upload.snap)
    ensures var u, c := CrashLate(s, order, now, done, lost), Crash(s, lost, true, order);
            && k in u.logs && k in u.refs && k in u.uploaded && |u.uploaded[k]| == |u.refs[k]|
            && k in c.logs && k in c.refs && k in c.uploaded && |c.uploaded[k]| == |c.refs[k]|
            && u.logs[k] == c.logs[k] && ObjectRead(u, k, off, maxBytes) == ObjectRead(c, k, off, maxBytes)
  {
    var u, c := CrashLate(s, order, now, done, lost), Crash(s, lost, true, order);
    var e, b := Ref(ObjKey("", 0), 0, 0, 0, 0, 0), [];
    if k in s.upload.snap {
      e, b := EntryOf(s, order, now, k), s.upload.snap[k].batches;
    }
    LateParts(s, order, now, done, lost, k, e, b);
    LateAlike(s, order, now, done, lost, k, e, b, u, c);
    ReadSame(u, c, k, k in done && k in s.upload.snap, e, b, off, maxBytes);
  }

  /** But a partition whose entry was committed then holds its snapshot twice, in the index and in
      the pending buffer: it counts those bytes twice and would upload them again. A partition is in
      good order if and only if its entry was not committed, it has something to take its offsets
      from, and the put left its older entries alone. */
  lemma LateOkIff(s: Node, order: seq<PartKey>, now: int, done: set<PartKey>, lost: nat, k: PartKey)
    requires PartInv(s, k) && lost <= |Active(s.wal)| && s.upload.InFlight? && Enumerates(order, s.upload.snap)
    ensures PartOk(CrashLate(s, order, now, done, lost), k)
            <==> !(k in done && k in s.upload.snap) && Recoverable(s, k, lost) && UntouchedBy(s, order, k)
  {
    var u, c := CrashLate(s, order, now, done, lost), Crash(s, lost, true, order);
    var m := Replay(Entries(CutLast(s.wal, lost)));
    if k in done && k in s.upload.snap {
      var e, b := EntryOf(s, order, now, k), s.upload.snap[k].batches;
      LateParts(s, order, now, done, lost, k, e, b);
      SnapshotReplayed(s, k, lost);
      RefForRange(s.upload.snap, order, k, ObjKey(s.id, s.upload.seqNo), now);
      TwiceNotOk(u, c, s.refs[k], s.uploaded[k], m, k, e, b);
    } else {
      OnceAlike(s, order, now, done, lost, k, u, c, m);
      CrashPartIff(s, lost, true, order, k);
    }
  }

  lemma OnceAlike(s: Node, order: seq<PartKey>, now: int, done: set<PartKey>, lost: nat, k: PartKey, u: Node, c: Node,
                  m: Recovered)
    requires KeysOk(s) && s.wal != [] && lost <= |Active(s.wal)| && k in s.logs
    requires s.upload.InFlight? && Enumerates(order, s.upload.snap) && m == Replay(Entries(CutLast(s.wal, lost)))
    requires !(k in done && k in s.upload.snap)
    requires u == CrashLate(s, order, now, done, lost) && c == Crash(s, lost, true, order)
    ensures PartOk(u, k) <==> PartOk(c, k)
  {
    var e, b := Ref(ObjKey("", 0), 0, 0, 0, 0, 0), [];
    if k in s.upload.snap {
      e, b := EntryOf(s, order, now, k), s.upload.snap[k].batches;
    }
    LateParts(s, order, now, done, lost, k, e, b);
    SamePart(u, c, s.refs[k], s.uploaded[k], m, k, e, b);
  }

  lemma SamePart(u: Node, c: Node, rs: seq<Ref>, cs: seq<seq<Batch>>, m: Recovered, k: PartKey, e: Ref, b: seq<Batch>)
    requires Restarts(u, c, rs, cs, m, k, false, e, b)
    ensures PartOk(u, k) <==> PartOk(c, k)
  {
    if k in c.history {
      assert PartOf(u, k) == PartOf(c, k);
    }
  }

  lemma TwiceNotOk(u: Node, c: Node, rs: seq<Ref>, cs: seq<seq<Batch>>, m: Recovered, k: PartKey, e: Ref, b: seq<Batch>)
    requires Restarts(u, c, rs, cs, m, k, true, e, b)
    requires k in m.buffer && EntryOk(m.buffer[k]) && m.buffer[k].base == e.base < e.next
    ensures !PartOk(u, k)
  {
    if PartOk(u, k) {
      NotTwice(u, k);
    }
  }

  /** In good order the pending buffer starts where the index ends. */
  lemma NotTwice(u: Node, k: PartKey)
    requires PartOk(u, k) && u.upload.Idle? && k in u.pending && EntryOk(u.pending[k]) && u.refs[k] != []
    ensures u.refs[k][|u.refs[k]| - 1].next == u.pending[k].base
  {
    EntriesTile(u, k);
    EndsOfTiles(u.refs[k], u.logs[k].earliest, IndexEnd(u, k));
    var p := PartOf(u, k);
    ChainSplit(p.Retained(), |p.uploaded|, p.log.earliest, p.log.next);
    assert p.Retained()[|p.uploaded|..] == p.pending;
  }
}
