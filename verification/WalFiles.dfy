/** The write-ahead log's numbered segment files, and the operations that append to them, seal
    them, trim them and replay them. */
module WalFiles {
  import opened Bytes
  import opened Seqs
  import opened Record
  import opened Wal
  import opened ObjectStorage

  function ToRecord(e: WalEntry): WalRecord
  {
    WalRecord(e.key, e.batch.base, e.batch.bytes)
  }

  function ToRecords(es: seq<WalEntry>): seq<WalRecord>
  {
    seq(|es|, i requires 0 <= i < |es| => ToRecord(es[i]))
  }

  /** A batch the log can frame. */
  predicate Fits(e: WalEntry)
  {
    Encodable(ToRecord(e)) && WellFormed(e.batch)
  }

  predicate AllFit(es: seq<WalEntry>)
  {
    forall i {:trigger Fits(es[i])} | 0 <= i < |es| :: Fits(es[i])
  }

  /** The segment's file: its frames, and behind them whatever a crash may have left. */
  ghost predicate FileOf(data: seq<byte>, g: WalSeg, tail: seq<byte>, crc: seq<byte> -> nat)
  {
    AllFit(g.entries) && Stops(tail, crc) && data == Frames(ToRecords(g.entries), crc) + tail
  }

  /** What a crash left behind the frames of segment n. */
  function TailOf(torn: map<nat, seq<byte>>, n: nat): seq<byte>
  {
    if n in torn then torn[n] else []
  }

  ghost predicate SegHeld(files: map<nat, seq<byte>>, g: WalSeg, torn: map<nat, seq<byte>>, crc: seq<byte> -> nat)
  {
    g.seqNo in files && FileOf(files[g.seqNo], g, TailOf(torn, g.seqNo), crc)
  }

  function SeqNos(segs: seq<WalSeg>): seq<nat>
  {
    if segs == [] then [] else [segs[0].seqNo] + SeqNos(segs[1..])
  }

  /** The directory holds a file for every segment and no other. */
  ghost predicate OnDisk(files: map<nat, seq<byte>>, segs: seq<WalSeg>, torn: map<nat, seq<byte>>,
                         crc: seq<byte> -> nat)
  {
    && (forall n :: n in files <==> n in SeqNos(segs))
    && (forall i {:trigger SegHeld(files, segs[i], torn, crc)} | 0 <= i < |segs| :: SegHeld(files, segs[i], torn, crc))
  }

  // ---------------------------------------------------------------- numbering

  lemma {:induction false} SeqNosJoin(v: seq<WalSeg>, w: seq<WalSeg>)
    ensures SeqNos(v + w) == SeqNos(v) + SeqNos(w)
  {
    if v == [] {
      assert v + w == w;
    } else {
      SeqNosJoin(v[1..], w);
      assert (v + w)[1..] == v[1..] + w;
      Associative([v[0].seqNo], SeqNos(v[1..]), SeqNos(w));
    }
  }

  lemma {:induction false} SeqNosAt(segs: seq<WalSeg>, i: nat)
    requires i < |segs|
    ensures |SeqNos(segs)| == |segs| && SeqNos(segs)[i] == segs[i].seqNo
  {
    if i > 0 {
      SeqNosAt(segs[1..], i - 1);
    } else if |segs| > 1 {
      SeqNosAt(segs[1..], 0);
    } else {
      assert segs[1..] == [];
    }
  }

  predicate Increasing(ns: seq<nat>)
  {
    forall i, j | 0 <= i < j < |ns| :: ns[i] < ns[j]
  }

  lemma {:induction false} NumberedIncreasing(segs: seq<WalSeg>, from: int)
    requires Numbered(segs, from)
    ensures Increasing(SeqNos(segs)) && forall n | n in SeqNos(segs) :: from <= n
  {
    if segs != [] {
      NumberedIncreasing(segs[1..], segs[0].seqNo + 1);
      var ns, rest := SeqNos(segs), SeqNos(segs[1..]);
      forall i, j | 0 <= i < j < |ns| ensures ns[i] < ns[j] {
        assert ns[j] == rest[j - 1] && ns[j] in rest;
        assert i > 0 ==> ns[i] == rest[i - 1];
      }
    }
  }

  /** Two increasing lists of the same numbers are the same list. */
  lemma {:induction false} IncreasingUnique(a: seq<nat>, b: seq<nat>)
    requires Increasing(a) && Increasing(b) && forall n :: n in a <==> n in b
    ensures a == b
  {
    assert b != [] ==> b[0] in b;
    if a != [] {
      assert a[0] in b && b[0] in a;
      forall n ensures n in a[1..] <==> n in b[1..] {
        assert n in a[1..] <==> n in a && n != a[0];
        assert n in b[1..] <==> n in b && n != b[0];
      }
      IncreasingUnique(a[1..], b[1..]);
      assert a == [a[0]] + a[1..] && b == [b[0]] + b[1..];
    }
  }

  lemma {:induction false} LeastExists(s: set<nat>) returns (m: nat)
    requires s != {}
    ensures m in s && forall n | n in s :: m <= n
    decreases |s|
  {
    m :| m in s;
    if s != {m} {
      var rest := s - {m};
      var m' := LeastExists(rest);
      forall n | n in s ensures (if m' < m then m' else m) <= n {
        assert n == m || n in rest;
      }
      m := if m' < m then m' else m;
    } else {
      forall n | n in s ensures n == m {
        assert n in {m};
      }
    }
  }

  /** segmentSeqs: the numbers of the segment files, sorted. */
  method SegmentSeqs(files: map<nat, seq<byte>>) returns (ns: seq<nat>)
    ensures Increasing(ns) && forall n :: n in ns <==> n in files
  {
    ns := [];
    var left := files.Keys;
    while left != {}
      invariant left <= files.Keys && Increasing(ns)
      invariant forall n :: n in files <==> n in ns || n in left
      invariant forall i, n | 0 <= i < |ns| && n in left :: ns[i] < n
      decreases |left|
    {
      ghost var least := LeastExists(left);
      var m :| m in left && forall n | n in left :: m <= n;
      ns, left := ns + [m], left - {m};
    }
  }

  // ---------------------------------------------------------------- frames

  lemma ToRecordsJoin(es: seq<WalEntry>, fs: seq<WalEntry>)
    ensures ToRecords(es + fs) == ToRecords(es) + ToRecords(fs)
  {
  }

  /** Writing one more frame behind the frames of a segment. */
  lemma FrameAppended(g: WalSeg, e: WalEntry, data: seq<byte>, crc: seq<byte> -> nat)
    requires FileOf(data, g, [], crc) && Fits(e)
    ensures FileOf(data + Frame(ToRecord(e), crc), WalSeg(g.seqNo, g.entries + [e]), [], crc)
  {
    var es := g.entries + [e];
    ToRecordsJoin(g.entries, [e]);
    assert ToRecords([e]) == [ToRecord(e)];
    FramesJoin(ToRecords(g.entries), [ToRecord(e)], crc);
    FramesOne(ToRecord(e), crc);
    forall i | 0 <= i < |es| ensures Fits(es[i]) {
      assert i < |g.entries| ==> Fits(g.entries[i]);
    }
    assert data == Frames(ToRecords(g.entries), crc);
  }

  lemma EncodableRecords(es: seq<WalEntry>)
    requires AllFit(es)
    ensures AllEncodable(ToRecords(es))
  {
    forall i | 0 <= i < |es| ensures Encodable(ToRecords(es)[i]) {
      assert Fits(es[i]);
    }
  }

  lemma {:induction false} AfterNos(segs: seq<WalSeg>, sealed: int)
    ensures forall n :: n in SeqNos(After(segs, sealed)) <==> n in SeqNos(segs) && n > sealed
    ensures forall g | g in After(segs, sealed) :: g in segs
  {
    if segs != [] {
      AfterNos(segs[1..], sealed);
    }
  }

  // ---------------------------------------------------------------- the files after each operation

  /** A number above the last one is new. */
  lemma NextNoFresh(segs: seq<WalSeg>)
    requires segs != [] && Numbered(segs, 0)
    ensures forall n | n in SeqNos(segs) :: n <= ActiveSeq(segs)
    ensures ActiveSeq(segs) in SeqNos(segs)
  {
    NumberedIncreasing(segs, 0);
    SeqNosAt(segs, |segs| - 1);
  }

  lemma {:induction false} HeldElsewhere(files: map<nat, seq<byte>>, g: WalSeg, torn: map<nat, seq<byte>>,
                                         crc: seq<byte> -> nat, n: nat, data: seq<byte>)
    requires SegHeld(files, g, torn, crc) && g.seqNo != n
    ensures SegHeld(files[n := data], g, torn, crc)
  {
  }

  lemma {:induction false} OpenedOnDisk(files: map<nat, seq<byte>>, segs: seq<WalSeg>, torn: map<nat, seq<byte>>,
                                        crc: seq<byte> -> nat)
    requires segs != [] && Numbered(segs, 0) && OnDisk(files, segs, torn, crc)
    requires ActiveSeq(segs) + 1 !in torn
    ensures OnDisk(files[ActiveSeq(segs) + 1 := []], Rotate(segs), torn, crc)
  {
    var n := ActiveSeq(segs) + 1;
    var g, t := WalSeg(n, []), Rotate(segs);
    NextNoFresh(segs);
    SeqNosJoin(segs, [g]);
    assert [g][1..] == [] && SeqNos([g]) == [n];
    forall i | 0 <= i < |t| ensures SegHeld(files[n := []], t[i], torn, crc) {
      if i < |segs| {
        assert SegHeld(files, segs[i], torn, crc);
        SeqNosAt(segs, i);
        HeldElsewhere(files, segs[i], torn, crc, n, []);
      }
    }
  }

  lemma {:induction false} HeldAppended(files: map<nat, seq<byte>>, g: WalSeg, torn: map<nat, seq<byte>>,
                                        crc: seq<byte> -> nat, e: WalEntry)
    requires SegHeld(files, g, torn, crc) && g.seqNo !in torn && Fits(e)
    ensures SegHeld(files[g.seqNo := files[g.seqNo] + Frame(ToRecord(e), crc)], WalSeg(g.seqNo, g.entries + [e]),
                    torn, crc)
  {
    FrameAppended(g, e, files[g.seqNo], crc);
  }

  /** Nothing but the last segment's file changed. */
  lemma {:induction false} ReplacedOnDisk(files: map<nat, seq<byte>>, segs: seq<WalSeg>, torn: map<nat, seq<byte>>,
                                          crc: seq<byte> -> nat, g: WalSeg, data: seq<byte>, now: map<nat, seq<byte>>)
    requires segs != [] && Numbered(segs, 0) && OnDisk(files, segs, torn, crc) && g.seqNo == ActiveSeq(segs)
    requires forall n | n != g.seqNo :: TailOf(now, n) == TailOf(torn, n)
    requires SegHeld(files[g.seqNo := data], g, now, crc)
    ensures OnDisk(files[g.seqNo := data], segs[..|segs| - 1] + [g], now, crc)
  {
    var m, n, t := |segs| - 1, g.seqNo, segs[..|segs| - 1] + [g];
    SameNos(segs, g);
    NumberedIncreasing(segs, 0);
    SeqNosAt(segs, m);
    forall i | 0 <= i < |t| ensures SegHeld(files[n := data], t[i], now, crc) {
      if i < m {
        assert SegHeld(files, segs[i], torn, crc);
        SeqNosAt(segs, i);
        HeldElsewhere(files, segs[i], torn, crc, n, data);
      }
    }
  }

  lemma SameNos(segs: seq<WalSeg>, g: WalSeg)
    requires segs != [] && g.seqNo == ActiveSeq(segs)
    ensures SeqNos(segs[..|segs| - 1] + [g]) == SeqNos(segs)
  {
    var m := |segs| - 1;
    assert segs == segs[..m] + [segs[m]] && [g][1..] == [] && [segs[m]][1..] == [];
    SeqNosJoin(segs[..m], [segs[m]]);
    SeqNosJoin(segs[..m], [g]);
  }

  /** A crash may cut the active file at any byte. What is then on disk is the log without its
      last records, some or none, and unreadable bytes behind them. */
  lemma {:induction false} CutOnDisk(files: map<nat, seq<byte>>, segs: seq<WalSeg>, torn: map<nat, seq<byte>>,
                                     crc: seq<byte> -> nat, c: nat) returns (lost: nat, tail: seq<byte>)
    requires segs != [] && WalOk(files, ActiveSeq(segs), segs, torn, crc)
    requires ActiveSeq(segs) in files && c <= |files[ActiveSeq(segs)]|
    ensures lost <= |Active(segs)|
    ensures var n := ActiveSeq(segs); OnDisk(files[n := files[n][..c]], CutLast(segs, lost), torn[n := tail], crc)
  {
    var n := ActiveSeq(segs);
    var g := segs[|segs| - 1];
    assert SegHeld(files, g, torn, crc);
    EncodableRecords(g.entries);
    var m;
    m, tail := CutFrames(ToRecords(g.entries), crc, c);
    lost := |g.entries| - m;
    CutFile(g, m, tail, crc);
    ReplacedOnDisk(files, segs, torn, crc, WalSeg(n, g.entries[..m]), files[n][..c], torn[n := tail]);
  }

  lemma {:induction false} CutFile(g: WalSeg, m: nat, tail: seq<byte>, crc: seq<byte> -> nat)
    requires AllFit(g.entries) && m <= |g.entries| && Stops(tail, crc)
    ensures FileOf(Frames(ToRecords(g.entries)[..m], crc) + tail, WalSeg(g.seqNo, g.entries[..m]), tail, crc)
  {
    var es := g.entries[..m];
    assert ToRecords(es) == ToRecords(g.entries)[..m];
    forall i | 0 <= i < |es| ensures Fits(es[i]) {
      assert Fits(g.entries[i]);
    }
  }

  lemma {:induction false} TrimmedOnDisk(files: map<nat, seq<byte>>, segs: seq<WalSeg>, torn: map<nat, seq<byte>>,
                                         crc: seq<byte> -> nat, sealed: nat, rest: map<nat, seq<byte>>)
    requires OnDisk(files, segs, torn, crc)
    requires forall n :: n in rest <==> n in files && n > sealed
    requires forall n | n in rest :: rest[n] == files[n]
    ensures OnDisk(rest, After(segs, sealed), torn, crc)
  {
    var t := After(segs, sealed);
    AfterNos(segs, sealed);
    forall i | 0 <= i < |t| ensures SegHeld(rest, t[i], torn, crc) {
      assert t[i] in segs;
      var j :| 0 <= j < |segs| && segs[j] == t[i];
      assert SegHeld(files, segs[j], torn, crc);
      SeqNosAt(t, i);
    }
  }

  // ---------------------------------------------------------------- the log

  /** Removing every file numbered up to sealed. */
  method RemoveThrough(files: map<nat, seq<byte>>, sealed: nat) returns (rest: map<nat, seq<byte>>)
    ensures forall n :: n in rest <==> n in files && n > sealed
    ensures forall n | n in rest :: rest[n] == files[n]
  {
    var ns := SegmentSeqs(files);
    rest := files;
    for i := 0 to |ns|
      invariant forall n :: n in rest <==> n in files && !(n <= sealed && n in ns[..i])
      invariant forall n | n in rest :: rest[n] == files[n]
    {
      assert ns[..i + 1] == ns[..i] + [ns[i]];
      if ns[i] <= sealed {
        rest := rest - {ns[i]};
      }
    }
    assert ns[..|ns|] == ns;
  }

  ghost predicate WalOk(files: map<nat, seq<byte>>, activeSeq: nat, segs: seq<WalSeg>, torn: map<nat, seq<byte>>,
                        crc: seq<byte> -> nat)
  {
    && segs != [] && Numbered(segs, 0) && ActiveSeq(segs) == activeSeq
    && (forall n | n in torn :: n < activeSeq)
    && OnDisk(files, segs, torn, crc)
  }

  class WalLog {
    const crc: seq<byte> -> nat
    var files: map<nat, seq<byte>>
    var activeSeq: nat
    ghost var segs: seq<WalSeg>
    ghost var torn: map<nat, seq<byte>>

    ghost predicate Valid()
      reads this
    {
      WalOk(files, activeSeq, segs, torn, crc)
    }

    /** openWAL in an empty directory. */
    constructor Create(crc: seq<byte> -> nat)
      ensures Valid() && this.crc == crc && segs == [WalSeg(1, [])]
    {
      this.crc := crc;
      files, activeSeq, segs, torn := map[1 := []], 1, [WalSeg(1, [])], map[];
      new;
      assert segs[1..] == [] && SeqNos(segs) == [1];
      assert SegHeld(files, segs[0], torn, crc);
    }

    /** openWAL over the files of an earlier life: whatever each of them ends in, they
        stay as they are, and a fresh segment takes the new appends. */
    constructor Open(disk: map<nat, seq<byte>>, crc: seq<byte> -> nat, ghost was: seq<WalSeg>,
                     ghost torn: map<nat, seq<byte>>)
      requires was != [] && Numbered(was, 0) && OnDisk(disk, was, torn, crc)
      requires forall n | n in torn :: n <= ActiveSeq(was)
      ensures Valid() && this.crc == crc && this.torn == torn && segs == Rotate(was)
    {
      var ns := SegmentSeqs(disk);
      NumberedIncreasing(was, 0);
      IncreasingUnique(ns, SeqNos(was));
      SeqNosAt(was, |was| - 1);
      NextNoFresh(was);
      NumberedLast(was, 0);
      var next := ns[|ns| - 1] + 1;
      OpenedOnDisk(disk, was, torn, crc);
      this.crc, this.torn, segs := crc, torn, Rotate(was);
      files, activeSeq := disk[next := []], next;
    }

    /** append: one more frame in the active segment. */
    method Append(e: WalEntry)
      requires Valid() && Fits(e)
      modifies this`files, this`segs
      ensures Valid() && segs == WalAppend(old(segs), e)
    {
      var payload := EncodePayload(ToRecord(e));
      var frame := [MAGIC] + BigEndian(crc(payload), 4) + BigEndian(|payload|, 4) + payload;
      ghost var g := segs[|segs| - 1];
      assert SegHeld(files, g, torn, crc);
      HeldAppended(files, g, torn, crc, e);
      ReplacedOnDisk(files, segs, torn, crc, WalSeg(activeSeq, g.entries + [e]), files[activeSeq] + frame, torn);
      WalAppendAfter(segs, e, 0, -1);
      files := files[activeSeq := files[activeSeq] + frame];
      segs := WalAppend(segs, e);
    }

    /** rotate: seals the active segment and opens the next one. */
    method Seal() returns (sealed: nat)
      requires Valid()
      modifies this`files, this`segs, this`activeSeq
      ensures Valid() && sealed == ActiveSeq(old(segs)) && segs == Rotate(old(segs))
    {
      NumberedLast(segs, 0);
      OpenedOnDisk(files, segs, torn, crc);
      sealed := activeSeq;
      files, activeSeq := files[sealed + 1 := []], sealed + 1;
      segs := Rotate(segs);
    }

    /** deleteThrough: removes the sealed segments and keeps the others byte for byte. */
    method DeleteThrough(sealed: nat)
      requires Valid() && sealed < activeSeq
      modifies this`files, this`segs
      ensures Valid() && segs == After(old(segs), sealed)
    {
      ghost var was := files;
      files := RemoveThrough(files, sealed);
      TrimmedOnDisk(was, segs, torn, crc, sealed, files);
      NumberedSplit(segs, 0, sealed);
      NumberedFrom(After(segs, sealed), sealed + 1, 0);
      AfterActive(segs, 0, sealed);
      segs := After(segs, sealed);
    }

    /** replay: the records of every segment file in number order, each up to where it stops being readable. */
    method Replay() returns (out: seq<WalRecord>, ok: bool)
      requires Valid()
      ensures ok && out == ToRecords(Entries(segs))
    {
      var ns := SegmentSeqs(files);
      NumberedIncreasing(segs, 0);
      IncreasingUnique(ns, SeqNos(segs));
      SeqNosAt(segs, |segs| - 1);
      out, ok := [], true;
      for i := 0 to |ns|
        invariant ok && out == ToRecords(Entries(segs[..i]))
      {
        SeqNosAt(segs, i);
        assert SegHeld(files, segs[i], torn, crc);
        EncodableRecords(segs[i].entries);
        var rs;
        ReplayedFrames(ToRecords(segs[i].entries), TailOf(torn, ns[i]), crc);
        rs, ok := ReplaySegment(files[ns[i]], crc);
        out := out + rs;
        EntriesNext(segs, i);
      }
      assert segs[..|segs|] == segs;
    }
  }

  lemma EntriesNext(segs: seq<WalSeg>, i: nat)
    requires i < |segs|
    ensures ToRecords(Entries(segs[..i + 1])) == ToRecords(Entries(segs[..i])) + ToRecords(segs[i].entries)
  {
    assert segs[..i + 1] == segs[..i] + [segs[i]];
    EntriesJoin(segs[..i], [segs[i]]);
    assert [segs[i]][1..] == [] && Entries([segs[i]]) == segs[i].entries;
    ToRecordsJoin(Entries(segs[..i]), segs[i].entries);
  }
}
