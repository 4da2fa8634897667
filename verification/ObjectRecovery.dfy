/** Restarting a node: the write-ahead log is replayed into the pending buffer and every
    partition's offsets are read back from the index and the replay. What a crash costs, and when
    it costs nothing. */
module ObjectRecovery {
  import opened Seqs
  import opened Record
  import opened Chunks
  import opened Wal
  import opened ObjectStorage
  import opened ObjectRuns
  import opened ObjectTheorems

  /** Replay demultiplexes: each partition gets exactly its own records, in order, and the
      offset range they span. */
  lemma {:induction false} ReplayPart(es: seq<WalEntry>, k: PartKey)
    ensures var m, bs := Replay(es), ForKey(es, k);
            && Held(m.buffer, k) == bs && (k in m.buffer <==> bs != [])
            && (k in m.recBase <==> bs != []) && (k in m.recNext <==> bs != [])
            && (bs != [] ==> m.recBase[k] == bs[0].base && m.recNext[k] == bs[|bs| - 1].next)
  {
    if es != [] {
      var n := |es| - 1;
      ReplayPart(es[..n], k);
      assert es == es[..n] + [es[n]] && [es[n]][1..] == [];
      ForKeyJoin(es[..n], [es[n]], k);
      var bs := ForKey(es[..n], k);
      assert ForKey(es, k) == if es[n].key == k then bs + [es[n].batch] else bs;
    }
  }

  lemma {:induction false} ReplayBuffer(es: seq<WalEntry>)
    ensures BufferOk(Replay(es).buffer)
  {
    if es != [] {
      var n := |es| - 1;
      ReplayBuffer(es[..n]);
      AppendBuffer(Replay(es[..n]).buffer, es[n].key, es[n].batch);
    }
  }

  // ---------------------------------------------------------------- what is left of the log

  /** Cutting the active segment cuts the end of the log and nothing else. */
  lemma EntriesCut(wal: seq<WalSeg>, lost: nat)
    requires wal != [] && lost <= |Active(wal)|
    ensures Entries(wal) == Entries(CutLast(wal, lost)) + Lost(wal, lost)
    ensures ActiveSeq(CutLast(wal, lost)) == ActiveSeq(wal)
  {
    var n := |wal| - 1;
    var es := wal[n].entries;
    var g := WalSeg(wal[n].seqNo, es[..|es| - lost]);
    assert wal == wal[..n] + [wal[n]];
    EntriesJoin(wal[..n], [wal[n]]);
    EntriesJoin(wal[..n], [g]);
    EntriesOne(wal[n]);
    EntriesOne(g);
    assert es == g.entries + Lost(wal, lost);
    Associative(Entries(wal[..n]), g.entries, Lost(wal, lost));
  }

  lemma EntriesOne(g: WalSeg)
    ensures Entries([g]) == g.entries
  {
    assert [g][1..] == [];
  }

  lemma {:induction false} CutNumbered(wal: seq<WalSeg>, lost: nat, from: int)
    requires wal != [] && lost <= |Active(wal)| && Numbered(wal, from)
    ensures Numbered(CutLast(wal, lost), from)
  {
    if |wal| > 1 {
      CutNumbered(wal[1..], lost, wal[0].seqNo + 1);
      assert CutLast(wal, lost)[1..] == CutLast(wal[1..], lost);
    } else {
      assert CutLast(wal, lost)[1..] == [] && wal[1..] == [];
    }
  }

  /** The log after the cut holds what is left of each partition's un-uploaded batches. */
  lemma LeftInLog(s: Node, k: PartKey, lost: nat)
    requires PartInv(s, k) && lost <= |Active(s.wal)|
    ensures WalOf(CutLast(s.wal, lost), k) == Left(s, k, lost)
    ensures Tail(s, k) == Left(s, k, lost) + ForKey(Lost(s.wal, lost), k)
  {
    Conservation(s, k);
    EntriesCut(s.wal, lost);
    ForKeyJoin(Entries(CutLast(s.wal, lost)), Lost(s.wal, lost), k);
  }

  /** A crash in any reachable state gives every partition back a prefix of its un-uploaded
      batches, in order, whether or not an upload was in flight: all of them but the records
      that had not reached the disk. */
  lemma CrashPending(s: Node, k: PartKey, lost: nat, put: bool, order: seq<PartKey>)
    requires PartInv(s, k) && lost <= |Active(s.wal)|
    requires put ==> s.upload.InFlight? && Enumerates(order, s.upload.snap)
    ensures Held(Crash(s, lost, put, order).pending, k) == Left(s, k, lost)
    ensures Left(s, k, lost) <= Tail(s, k) && (lost == 0 ==> Left(s, k, lost) == Tail(s, k))
  {
    LeftInLog(s, k, lost);
    LeftIsPrefix(s, k, lost);
    ReplayPart(Entries(CutLast(s.wal, lost)), k);
    assert Crash(s, lost, put, order).pending == Replay(Entries(CutLast(s.wal, lost))).buffer;
  }

  lemma LeftIsPrefix(s: Node, k: PartKey, lost: nat)
    requires s.wal != [] && lost <= |Active(s.wal)|
    requires Tail(s, k) == Left(s, k, lost) + ForKey(Lost(s.wal, lost), k)
    ensures Left(s, k, lost) <= Tail(s, k) && (lost == 0 ==> Left(s, k, lost) == Tail(s, k))
  {
    if lost == 0 {
      assert Lost(s.wal, lost) == [];
    }
  }

  // ---------------------------------------------------------------- offsets

  lemma HistoryNonNegative(s: Node, k: PartKey)
    requires PartInv(s, k)
    ensures 0 <= s.logs[k].earliest <= s.logs[k].next
  {
    assert PartOk(s, k);
    var p := PartOf(s, k);
    var r, n := p.Retained(), |p.history|;
    ChainBounds(r, p.log.earliest, p.log.next);
    ChainBounds(p.history, 0, p.log.next);
    if r != [] {
      assert r[0] == p.history[n - |r|];
    }
  }

  /** A partition with an index entry or a record left comes back with its earliest offset and the
      log end its last batch left has. One with neither comes back at offset 0. */
  lemma CrashOffsets(s: Node, k: PartKey, lost: nat, put: bool, order: seq<PartKey>)
    requires PartInv(s, k) && lost <= |Active(s.wal)|
    requires put ==> s.upload.InFlight? && Enumerates(order, s.upload.snap)
    ensures var l := Crash(s, lost, put, order).logs[k];
            && k in s.uploaded && k in s.history && l.hwm == l.next
            && (if s.refs[k] != [] || Left(s, k, lost) != []
                then l.next == EndOf(Left(s, k, lost), IndexEnd(s, k)) && l.earliest == s.logs[k].earliest
                else l.next == 0 && l.earliest == 0)
  {
    Conservation(s, k);
    LeftInLog(s, k, lost);
    var l, mid, left := s.logs[k], IndexEnd(s, k), Left(s, k, lost);
    ChainSplit(Tail(s, k), |left|, mid, l.next);
    assert Tail(s, k)[..|left|] == left;
    HistoryNonNegative(s, k);
    ReopenOffsets(s.refs[k], l.earliest, mid, left, StartOf(Tail(s, k), |left|, l.next), Entries(CutLast(s.wal, lost)),
                  k);
  }

  /** Storage.Log over entries that tile [from, mid) and a replay that left a run from there. */
  lemma ReopenOffsets(rs: seq<Ref>, from: int, mid: int, left: seq<Batch>, end: int, es: seq<WalEntry>, k: PartKey)
    requires Tiles(rs, from, mid) && Chain(left, mid, end) && 0 <= from && ForKey(es, k) == left
    ensures EndOf(left, mid) == end
    ensures var l := Reopen(rs, Replay(es), k);
            && l.hwm == l.next
            && (if rs != [] || left != [] then l.next == end && l.earliest == from else l.next == 0 && l.earliest == 0)
  {
    ReplayPart(es, k);
    TilesBounds(rs, from, mid);
    ChainBounds(left, mid, end);
    if rs != [] {
      EndsOfTiles(rs, from, mid);
    }
  }

  /** When nothing is lost, the log end survives if and only if the partition has an index entry or
      an un-uploaded batch, or it was 0. */
  lemma LogEndSurvives(s: Node, k: PartKey, put: bool, order: seq<PartKey>)
    requires PartInv(s, k)
    requires put ==> s.upload.InFlight? && Enumerates(order, s.upload.snap)
    ensures var l, l' := s.logs[k], Crash(s, 0, put, order).logs[k];
            && (l'.next == l.next <==> s.refs[k] != [] || Tail(s, k) != [] || l.next == 0)
            && (s.refs[k] != [] || Tail(s, k) != [] ==> l'.earliest == l.earliest)
  {
    CrashPending(s, k, 0, put, order);
    CrashOffsets(s, k, 0, put, order);
    Conservation(s, k);
    ChainBounds(Tail(s, k), IndexEnd(s, k), s.logs[k].next);
  }

  // ---------------------------------------------------------------- the invariant

  /** One partition's share after a crash that leaves the first batches of its tail. */
  lemma GoodCrash(p: Part, left: seq<Batch>, gone: seq<Batch>, l: LogState)
    requires PartGood(p) && p.snap + p.pending == left + gone
    requires l.hwm == l.next && l.earliest == p.log.earliest
    requires l.next == StartOf(p.Retained(), |p.uploaded| + |left|, p.log.next)
    ensures PartGood(Part(l, Without(p.history, |gone|), p.uploaded, [], left, [], left))
  {
    assert [] + left == left;
    Associative(p.uploaded, left, gone);
    CutRun(p.uploaded + left, gone, p.history, p.log.earliest, p.log.next);
  }

  /** Taking the end off a run that ends a history. */
  lemma CutRun(kept: seq<Batch>, gone: seq<Batch>, h: seq<Batch>, from: int, next: int)
    requires Chain(kept + gone, from, next) && Sound(kept + gone) && IsSuffix(kept + gone, h) && Chain(h, 0, next)
    ensures var end, left := StartOf(kept + gone, |kept|, next), Without(h, |gone|);
            Chain(kept, from, end) && Sound(kept) && IsSuffix(kept, left) && Chain(left, 0, end)
  {
    ChainSplit(kept + gone, |kept|, from, next);
    assert (kept + gone)[..|kept|] == kept;
    SoundJoin(kept, gone);
    SuffixCut(h, kept, gone);
    CutEnds(h, kept, gone, next);
    ChainSplit(h, |h| - |gone|, 0, next);
  }

  /** Removing the end of a history removes it from its suffixes. */
  lemma SuffixCut(h: seq<Batch>, kept: seq<Batch>, gone: seq<Batch>)
    requires IsSuffix(kept + gone, h)
    ensures |gone| <= |h| && IsSuffix(kept, h[..|h| - |gone|])
  {
    var m := |h| - |kept| - |gone|;
    assert h[m..] == kept + gone;
    SliceSlice(h, m, |h|, 0, |kept|);
    SliceSlice(h, 0, |h| - |gone|, m, |h| - |gone|);
    assert h[m..|h|] == h[m..];
    assert (kept + gone)[0..|kept|] == kept;
  }

  lemma CutEnds(h: seq<Batch>, kept: seq<Batch>, gone: seq<Batch>, next: int)
    requires IsSuffix(kept + gone, h)
    ensures StartOf(h, |h| - |gone|, next) == StartOf(kept + gone, |kept|, next)
  {
    var r := kept + gone;
    var m := |h| - |r|;
    if gone != [] {
      assert r[|kept|] == h[m..][|kept|] == h[m + |kept|];
    }
  }

  lemma CrashPartOf(s: Node, k: PartKey, lost: nat, put: bool, order: seq<PartKey>)
    requires PartInv(s, k) && lost <= |Active(s.wal)|
    requires put ==> s.upload.InFlight? && Enumerates(order, s.upload.snap)
    ensures var p, t := PartOf(s, k), Crash(s, lost, put, order);
            PartOf(t, k) == Part(t.logs[k], Without(p.history, |ForKey(Lost(s.wal, lost), k)|), p.uploaded,
                                 [], Left(s, k, lost), [], Left(s, k, lost))
  {
    CrashPending(s, k, lost, put, order);
    LeftInLog(s, k, lost);
    CutNumbered(s.wal, lost, 0);
    RotatedLog(CutLast(s.wal, lost), k);
  }

  lemma RotatedLog(wal: seq<WalSeg>, k: PartKey)
    requires wal != [] && Numbered(wal, 0)
    ensures Upto(Rotate(wal), -1) == [] && WalOf(After(Rotate(wal), -1), k) == WalOf(wal, k)
  {
    var g := WalSeg(ActiveSeq(wal) + 1, []);
    NumberedLast(wal, 0);
    NumberedFrom(Rotate(wal), 0, 0);
    WalJoin(wal, [g], k);
    WalOne(g, k);
    assert WalOf(wal, k) + [] == WalOf(wal, k);
  }

  /** Whether a partition's share survives: exactly if there is something to take its offsets
      from. */
  lemma CrashPartGood(s: Node, k: PartKey, lost: nat, put: bool, order: seq<PartKey>)
    requires PartInv(s, k) && lost <= |Active(s.wal)|
    requires put ==> s.upload.InFlight? && Enumerates(order, s.upload.snap)
    ensures k in s.history && k in s.uploaded
    ensures PartGood(PartOf(Crash(s, lost, put, order), k)) <==> Recoverable(s, k, lost)
  {
    assert PartOk(s, k);
    var left, gone := Left(s, k, lost), ForKey(Lost(s.wal, lost), k);
    LeftInLog(s, k, lost);
    CrashOffsets(s, k, lost, put, order);
    CrashPartOf(s, k, lost, put, order);
    CrashEnd(s, k, left, gone);
    GoodCrashIff(PartOf(s, k), left, gone, Crash(s, lost, put, order).logs[k], s.refs[k] != []);
  }

  lemma GoodCrashIff(p: Part, left: seq<Batch>, gone: seq<Batch>, l: LogState, indexed: bool)
    requires PartGood(p) && p.snap + p.pending == left + gone && l.hwm == l.next
    requires if indexed || left != []
             then l.earliest == p.log.earliest && l.next == StartOf(p.Retained(), |p.uploaded| + |left|, p.log.next)
             else l.next == 0 && l.earliest == 0
    requires !indexed ==> p.uploaded == []
    ensures PartGood(Part(l, Without(p.history, |gone|), p.uploaded, [], left, [], left))
            <==> indexed || left != [] || Without(p.history, |gone|) == []
  {
    if indexed || left != [] {
      GoodCrash(p, left, gone, l);
    } else {
      var h := Without(p.history, |gone|);
      if h != [] && Chain(h, 0, 0) {
        ChainBounds(h, 0, 0);
      }
    }
  }

  /** Where what is left ends. */
  lemma CrashEnd(s: Node, k: PartKey, left: seq<Batch>, gone: seq<Batch>)
    requires PartInv(s, k) && Tail(s, k) == left + gone
    ensures EndOf(left, IndexEnd(s, k)) == StartOf(PartOf(s, k).Retained(), |Flat(s.uploaded[k])| + |left|,
                                                   s.logs[k].next)
  {
    Conservation(s, k);
    RunEnd(Flat(s.uploaded[k]), left, gone, IndexEnd(s, k), s.logs[k].next);
  }

  lemma RunEnd(before: seq<Batch>, left: seq<Batch>, gone: seq<Batch>, mid: int, next: int)
    requires Chain(left + gone, mid, next)
    ensures EndOf(left, mid) == StartOf(before + (left + gone), |before| + |left|, next)
  {
    ChainSplit(left + gone, |left|, mid, next);
    assert (left + gone)[..|left|] == left && (left + gone)[|left|..] == gone;
    ChainBounds(left, mid, StartOf(left + gone, |left|, next));
  }

  lemma CrashGlobals(s: Node, lost: nat, put: bool, order: seq<PartKey>)
    requires KeysOk(s) && BuffersOk(s) && lost <= |Active(s.wal)|
    requires put ==> s.upload.InFlight? && Enumerates(order, s.upload.snap)
    ensures var t := Crash(s, lost, put, order); KeysOk(t) && BuffersOk(t)
  {
    var t, wal := Crash(s, lost, put, order), CutLast(s.wal, lost);
    var es := Entries(wal);
    ReplayBuffer(es);
    CutNumbered(s.wal, lost, 0);
    NumberedLast(wal, 0);
    EntriesCut(s.wal, lost);
    EntriesRotate(wal);
    forall e | e in Entries(t.wal) ensures e.key in t.logs {
      assert e in Entries(s.wal);
    }
    forall k | k in t.pending ensures k in t.logs {
      ReplayPart(es, k);
      if k !in s.logs {
        ForKeyNone(es, k);
      }
    }
  }

  lemma {:induction false} ForKeyNone(es: seq<WalEntry>, k: PartKey)
    requires forall e | e in es :: e.key != k
    ensures ForKey(es, k) == []
  {
    if es != [] {
      assert es[0] in es;
      ForKeyNone(es[1..], k);
    }
  }

  /** When a crash is harmless to a partition: replay and reopening put it in good order again if
      and only if it has something to take its offsets from and a put just before the crash left
      its entries alone. */
  lemma CrashPartIff(s: Node, lost: nat, put: bool, order: seq<PartKey>, k: PartKey)
    requires PartInv(s, k) && lost <= |Active(s.wal)|
    requires put ==> s.upload.InFlight? && Enumerates(order, s.upload.snap)
    ensures PartOk(Crash(s, lost, put, order), k)
            <==> Recoverable(s, k, lost) && (put ==> UntouchedBy(s, order, k))
  {
    CrashPartGood(s, k, lost, put, order);
    if put {
      PutKeepsIff(s.objects, s.refs[k], s.uploaded[k], ObjKey(s.id, s.upload.seqNo), ObjectBytes(s.upload.snap, order));
    }
  }

  /** And to the node: the whole invariant is restored, so that appends, uploads, retention and
      reads carry on as before, if and only if that holds of every partition. */
  lemma CrashKeepsIff(s: Node, lost: nat, put: bool, order: seq<PartKey>)
    requires Inv(s) && lost <= |Active(s.wal)|
    requires put ==> s.upload.InFlight? && Enumerates(order, s.upload.snap)
    ensures Inv(Crash(s, lost, put, order)) <==>
            && (forall k {:trigger Recoverable(s, k, lost)} | k in s.logs :: Recoverable(s, k, lost))
            && (put ==> SafeName(s, order))
  {
    var t := Crash(s, lost, put, order);
    CrashGlobals(s, lost, put, order);
    forall k | k in s.logs
      ensures PartOk(t, k) <==> Recoverable(s, k, lost) && (put ==> UntouchedBy(s, order, k))
    {
      assert PartOk(s, k);
      CrashPartIff(s, lost, put, order, k);
    }
    if (forall k | k in s.logs :: Recoverable(s, k, lost)) && (put ==> SafeName(s, order)) {
      forall k | k in t.logs ensures PartOk(t, k) {
        assert put ==> UntouchedBy(s, order, k);
      }
      Assemble(t);
    }
    if Inv(t) {
      forall k | k in s.logs ensures Recoverable(s, k, lost) && (put ==> UntouchedBy(s, order, k)) {
        assert PartOk(t, k);
      }
    }
  }

  // ---------------------------------------------------------------- the window inside upload

  function AppendAll(wal: seq<WalSeg>, es: seq<WalEntry>): (w: seq<WalSeg>)
    requires wal != []
    ensures w != []
  {
    if es == [] then wal else WalAppend(AppendAll(wal, es[..|es| - 1]), es[|es| - 1])
  }

  lemma {:induction false} AppendAllNumbered(wal: seq<WalSeg>, es: seq<WalEntry>)
    requires wal != [] && Numbered(wal, 0)
    ensures Numbered(AppendAll(wal, es), 0) && ActiveSeq(AppendAll(wal, es)) == ActiveSeq(wal)
  {
    if es != [] {
      AppendAllNumbered(wal, es[..|es| - 1]);
      WalAppendAfter(AppendAll(wal, es[..|es| - 1]), es[|es| - 1], 0, -1);
    }
  }

  lemma {:induction false} EntriesAll(wal: seq<WalSeg>, es: seq<WalEntry>)
    requires wal != []
    ensures Entries(AppendAll(wal, es)) == Entries(wal) + es
  {
    if es != [] {
      var n := |es| - 1;
      EntriesAll(wal, es[..n]);
      EntriesAppend(AppendAll(wal, es[..n]), es[n]);
      assert es == es[..n] + [es[n]];
    }
  }

  /** Appends behind a seal leave the sealed segments alone. */
  lemma {:induction false} AppendAllAfter(wal: seq<WalSeg>, es: seq<WalEntry>, n: int)
    requires wal != [] && Numbered(wal, 0) && n < ActiveSeq(wal)
    ensures After(wal, n) != [] && After(AppendAll(wal, es), n) == AppendAll(After(wal, n), es)
  {
    if es == [] {
      AfterActive(wal, 0, n);
    } else {
      var m := |es| - 1;
      AppendAllAfter(wal, es[..m], n);
      AppendAllNumbered(wal, es[..m]);
      WalAppendAfter(AppendAll(wal, es[..m]), es[m], 0, n);
    }
  }

  /** upload releases its lock between taking the pending buffer and sealing the write-ahead log.
      Suppose the records es are appended in that window and fs after it, until the upload has
      finished: all of them are in the new pending buffer, but es lie in the sealed segment and go
      with it. So the log still covers a partition's pending batches, and a crash gives them
      back, if and only if none of them was appended in the window. */
  lemma AppendsInTheWindow(s: Node, es: seq<WalEntry>, fs: seq<WalEntry>, k: PartKey)
    requires BuffersOk(s)
    ensures var pending := Replay(es + fs).buffer;
            var wal := AppendAll(Rotate(AppendAll(s.wal, es)), fs);
            var trimmed := After(wal, ActiveSeq(s.wal));
            && Held(pending, k) == ForKey(es, k) + ForKey(fs, k) && WalOf(trimmed, k) == ForKey(fs, k)
            && (WalOf(trimmed, k) == Held(pending, k) <==> ForKey(es, k) == [])
            && (Held(Replay(Entries(trimmed)).buffer, k) == Held(pending, k) <==> ForKey(es, k) == [])
  {
    var wal := AppendAll(s.wal, es);
    var g := WalSeg(ActiveSeq(wal) + 1, []);
    AppendAllNumbered(s.wal, es);
    RotateSplit(wal, 0);
    NumberedLast(wal, 0);
    AppendAllAfter(Rotate(wal), fs, ActiveSeq(s.wal));
    EntriesAll([g], fs);
    assert [g][1..] == [] && Entries([g]) == [] && [] + fs == fs;
    ForKeyJoin(es, fs, k);
    ReplayPart(es + fs, k);
    ReplayPart(fs, k);
  }
}
