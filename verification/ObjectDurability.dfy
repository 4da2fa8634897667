/** What an appended batch can count on: over every run, with any uploads, failures, retention and
    crashes in between, a read at its offset returns its bytes. */
module ObjectDurability {
  import opened Record
  import opened Chunks
  import opened Wal
  import opened ObjectStorage
  import opened ObjectRuns
  import opened ObjectTheorems
  import opened ObjectReads
  import opened ObjectRecovery
  import opened ObjectLives

  // ---------------------------------------------------------------- what a crash takes

  /** The batches a crash loses are the last ones appended. */
  lemma LostIsLast(s: Node, lost: nat, k: PartKey)
    requires PartInv(s, k) && lost <= |Active(s.wal)|
    ensures k in s.history && |LostOf(s, lost, k)| <= |s.history[k]|
    ensures s.history[k] == Without(s.history[k], |LostOf(s, lost, k)|) + LostOf(s, lost, k)
  {
    assert PartOk(s, k);
    LeftInLog(s, k, lost);
    var p, gone := PartOf(s, k), LostOf(s, lost, k);
    EndsWith(p.history, p.Retained(), p.uploaded, Left(s, k, lost), gone);
  }

  lemma EndsWith(h: seq<Batch>, r: seq<Batch>, a: seq<Batch>, b: seq<Batch>, c: seq<Batch>)
    requires IsSuffix(r, h) && r == a + (b + c)
    ensures |c| <= |h| && h == Without(h, |c|) + c
  {
    var n := |h| - |c|;
    assert h[n..] == c by {
      assert h[|h| - |r|..] == r;
      assert r[|r| - |c|..] == c;
      assert h[n..] == h[|h| - |r|..][|r| - |c|..];
    }
    assert h == h[..n] + h[n..];
  }

  /** A crash keeps an appended batch if and only if it does not lose the batch's record. */
  lemma CrashKeepsBatchIff(s: Node, lost: nat, put: bool, order: seq<PartKey>, k: PartKey, b: Batch)
    requires PartInv(s, k) && lost <= |Active(s.wal)| && b in s.history[k]
    requires put ==> s.upload.InFlight? && Enumerates(order, s.upload.snap)
    ensures b in Crash(s, lost, put, order).history[k] <==> b !in LostOf(s, lost, k)
  {
    assert PartOk(s, k);
    LostIsLast(s, lost, k);
    var h, gone := s.history[k], LostOf(s, lost, k);
    OnlyOnce(h, s.logs[k].next, Without(h, |gone|), gone, b);
  }

  lemma OnlyOnce(h: seq<Batch>, to: int, kept: seq<Batch>, gone: seq<Batch>, b: Batch)
    requires Chain(h, 0, to) && h == kept + gone && b in h
    ensures b in kept <==> b !in gone
  {
    if b in kept && b in gone {
      var i :| 0 <= i < |kept| && kept[i] == b;
      var j :| 0 <= j < |gone| && gone[j] == b;
      assert h[i] == b && h[|kept| + j] == b;
      ChainOrdered(h, 0, to, i, |kept| + j);
      ChainBounds(h, 0, to);
    }
  }

  // ---------------------------------------------------------------- over a run

  /** The step is no crash that loses the record of batch b. */
  predicate Keeps(s: Node, a: Action, k: PartKey, b: Batch)
  {
    (a.DoCrash? || a.DoCrashLate?) && s.wal != [] && a.lost <= |Active(s.wal)| ==> b !in LostOf(s, a.lost, k)
  }

  lemma StepKeepsBatch(s: Node, a: Action, t: Node, k: PartKey, b: Batch)
    requires PartInv(s, k) && Next(s, a, t) && Keeps(s, a, k, b) && b in s.history[k]
    ensures k in t.logs && k in t.history && b in t.history[k]
  {
    if a.DoCrash? {
      CrashKeepsBatchIff(s, a.lost, a.put, a.order, k, b);
    } else if a.DoCrashLate? {
      CrashKeepsBatchIff(s, a.lost, true, a.order, k, b);
    }
  }

  lemma {:induction false} BatchStays(states: seq<Node>, acts: seq<Action>, id: string, ks: set<PartKey>, m: nat,
                                      n: nat, k: PartKey, b: Batch)
    requires Run(states, acts, id, ks) && m <= n < |states| && k in ks && Spared(states, acts, n, k)
    requires k in states[m].history && b in states[m].history[k]
    requires forall i {:trigger Keeps(states[i], acts[i], k, b)} | m <= i < n :: Keeps(states[i], acts[i], k, b)
    ensures k in states[n].history && b in states[n].history[k]
    decreases n
  {
    if m < n {
      BatchStays(states, acts, id, ks, m, n - 1, k, b);
      PartitionOk(states, acts, id, ks, n - 1, k);
      assert StepAt(states, acts, n - 1) && Keeps(states[n - 1], acts[n - 1], k, b);
      StepKeepsBatch(states[n - 1], acts[n - 1], states[n], k, b);
    }
  }

  // ---------------------------------------------------------------- reading it back

  lemma {:induction false} SkipKeeps(h: seq<Batch>, from: int, to: int, earliest: int, b: Batch)
    requires Chain(h, from, to) && b in h && earliest <= b.base
    ensures b in Skip(h, earliest)
  {
    ChainBounds(h, from, to);
    if h[0].next <= earliest {
      assert b != h[0];
      SkipKeeps(h[1..], h[0].next, to, earliest, b);
    }
  }

  lemma ReadFindsBatch(bs: seq<Batch>, from: int, to: int, i: nat, j: nat, b: Batch)
    requires Chain(bs, from, to) && b in bs && i < j <= |bs| && bs[i].base <= b.base < bs[i].next
    ensures b.bytes <= Concat(bs[i..j])
  {
    var x :| 0 <= x < |bs| && bs[x] == b;
    ChainBounds(bs, from, to);
    if x < i {
      ChainOrdered(bs, from, to, x, i);
    } else if i < x {
      ChainOrdered(bs, from, to, i, x);
    }
    assert bs[i..j][0] == b;
  }

  lemma ReadBack(s: Node, k: PartKey, b: Batch, maxBytes: int)
    requires PartInv(s, k) && b in s.history[k] && s.logs[k].earliest <= b.base
    ensures PartOk(s, k)
    ensures var r := ObjectRead(s, k, b.base, maxBytes);
            if InSnapshot(s, k, b.base) then r == Data([]) else r.Data? && b.bytes <= r.bytes
  {
    assert PartOk(s, k);
    ObjectReadExact(s, k, b.base, maxBytes);
    ChunksHold(s, k);
    var p, cs := PartOf(s, k), PartChunks(s, k);
    SuffixIsSkip(p.history, p.Retained(), p.log.earliest, p.log.next);
    SkipKeeps(p.history, 0, p.log.next, p.log.earliest, b);
    ChainBounds(p.Retained(), p.log.earliest, p.log.next);
    var i, j := ReadIsRun(cs, p.log.earliest, p.log.next, b.base, maxBytes);
    ReadFindsBatch(p.Retained(), p.log.earliest, p.log.next, i, j, b);
  }

  /** What a reader gets, in every state of every run that spares the partition, whatever became of
      the others: the reference read over the batches it retains, and those are every batch appended
      and not lost at or above the earliest offset; except that an offset in the snapshot being
      uploaded reads as "nothing yet". */
  lemma EveryRead(states: seq<Node>, acts: seq<Action>, id: string, ks: set<PartKey>, n: nat, k: PartKey, off: int,
                  maxBytes: int)
    requires Run(states, acts, id, ks) && n < |states| && k in ks && Spared(states, acts, n, k)
    ensures PartInv(states[n], k)
    ensures var s := states[n];
            && Flat(PartChunks(s, k)) == Skip(s.history[k], s.logs[k].earliest)
            && Denoted(s.objects, s.refs[k]) + Concat(Held(Snap(s), k) + Held(s.pending, k))
               == Concat(Skip(s.history[k], s.logs[k].earliest))
            && ObjectRead(s, k, off, maxBytes)
               == if InSnapshot(s, k, off) then Data([])
                  else BackendRead(PartChunks(s, k), s.logs[k].earliest, s.logs[k].next, off, maxBytes)
  {
    PartitionOk(states, acts, id, ks, n, k);
    ReadsRetained(states[n], k, off, maxBytes);
    Conservation(states[n], k);
  }

  lemma ReadsRetained(s: Node, k: PartKey, off: int, maxBytes: int)
    requires PartInv(s, k)
    ensures PartOk(s, k) && Flat(PartChunks(s, k)) == Skip(s.history[k], s.logs[k].earliest)
    ensures ObjectRead(s, k, off, maxBytes)
            == if InSnapshot(s, k, off) then Data([])
               else BackendRead(PartChunks(s, k), s.logs[k].earliest, s.logs[k].next, off, maxBytes)
  {
    ObjectReadExact(s, k, off, maxBytes);
    ChunksHold(s, k);
    var p := PartOf(s, k);
    SuffixIsSkip(p.history, p.Retained(), p.log.earliest, p.log.next);
  }

  /** The durability theorem. A batch appended by state m of a run is there in every later state n
      of it, whatever uploads, failed uploads, retention and crashes came between, if the run spares
      the partition and no crash lost the batch's record before it reached the disk. And unless
      retention has passed it, a read at its offset returns its bytes first; only while its snapshot
      is being uploaded does it find nothing yet. */
  lemma Durable(states: seq<Node>, acts: seq<Action>, id: string, ks: set<PartKey>, m: nat, n: nat,
                k: PartKey, b: Batch, maxBytes: int)
    requires Run(states, acts, id, ks) && m <= n < |states| && k in ks && Spared(states, acts, n, k)
    requires k in states[m].history && b in states[m].history[k]
    requires forall i {:trigger Keeps(states[i], acts[i], k, b)} | m <= i < n :: Keeps(states[i], acts[i], k, b)
    ensures PartInv(states[n], k) && b in states[n].history[k]
    ensures states[n].logs[k].earliest <= b.base ==>
              var r := ObjectRead(states[n], k, b.base, maxBytes);
              if InSnapshot(states[n], k, b.base) then r == Data([]) else r.Data? && b.bytes <= r.bytes
  {
    BatchStays(states, acts, id, ks, m, n, k, b);
    PartitionOk(states, acts, id, ks, n, k);
    if states[n].logs[k].earliest <= b.base {
      ReadBack(states[n], k, b, maxBytes);
    }
  }
}
