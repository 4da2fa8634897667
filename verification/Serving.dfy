/** The request handlers around the logs: answering a fetch, applying one on a follower, hiding
    what is not committed from consumers, and waiting for acks=all. */
module Serving {
  import opened Bytes
  import opened Seqs
  import opened Record
  import opened Chunks
  import opened Segments
  import opened FileLog
  import opened Replication

  // ---------------------------------------------------------------- answering a follower

  /** What either backend reads at a boundary of its log is something the protocol may serve,
      whatever part of the log is retained and however it is cut into chunks. */
  lemma BackendServes(log: seq<Batch>, cs: seq<seq<Batch>>, from: int, off: int, maxBytes: int)
    requires Chain(log, 0, Leo(log)) && Tiled(cs, from, Leo(log)) && AllSound(cs)
    requires Flat(cs) == Skip(log, from) && from <= off < Leo(log) && OnBoundary(log, off)
    ensures Serves(log, off, ReadAt(cs, from, off, maxBytes))
  {
    var bs := Flat(cs);
    var i, j := ReadIsRun(cs, from, Leo(log), off, maxBytes);
    FlatChain(cs, from, Leo(log));
    var d := SkipSuffix(log, from);
    var n :| StartsAt(log, n, off);
    ChainBounds(log, 0, Leo(log));
    assert bs[i] == log[d + i];
    if n < d + i {
      ChainOrdered(log, 0, Leo(log), n, d + i);
    } else if d + i < n {
      ChainOrdered(log, 0, Leo(log), d + i, n);
    }
    SliceSlice(log, d, |log|, i, j);
    assert RunAt(log, d + i, d + j, bs[i..j]);
  }

  lemma {:induction false} SkipSuffix(bs: seq<Batch>, want: int) returns (d: nat)
    ensures d <= |bs| && Skip(bs, want) == bs[d..] && bs[d..] == bs[d..|bs|]
  {
    if bs == [] || bs[0].next > want {
      d := 0;
    } else {
      d := SkipSuffix(bs[1..], want);
      d := d + 1;
    }
  }

  /** advanceHighWatermark's loop computes that minimum. */
  method LeastLoop(leo: int, self: int, progress: map<int, int>, isr: seq<int>) returns (hwm: int)
    ensures hwm == LeastOf(leo, self, progress, isr)
    ensures hwm <= leo && forall id | id in isr && id != self :: hwm <= OnRecord(progress, id)
    ensures hwm == leo || exists id :: id in isr && id != self && hwm == OnRecord(progress, id)
  {
    LeastIs(leo, self, progress, isr);
    hwm := leo;
    for i := 0 to |isr|
      invariant hwm == LeastOf(leo, self, progress, isr[..i])
    {
      var id := isr[i];
      assert isr[..i + 1][..i] == isr[..i];
      if id != self {
        var off := if id in progress then progress[id] else 0;
        if off < hwm {
          hwm := off;
        }
      }
    }
    assert isr[..|isr|] == isr;
  }

  /** An offset within the log that every other in-sync replica is on record for. */
  ghost predicate Reachable(off: int, leo: int, self: int, progress: map<int, int>, isr: seq<int>)
  {
    off <= leo && forall id | id in isr && id != self :: off <= OnRecord(progress, id)
  }

  /** A partition at its leader: the log, and how far each follower has fetched. */
  class LeaderPartition {
    const self: int
    const log: Log
    var progress: map<int, int>

    constructor (self: int, log: Log)
      ensures this.self == self && this.log == log && progress == map[]
    {
      this.self, this.log, progress := self, log, map[];
    }

    /** advanceHighWatermark, isr being the committed in-sync set. */
    method AdvanceHighWatermark(isr: seq<int>)
      requires log.Valid()
      modifies log`highWatermark
      ensures log.Valid()
      ensures log.highWatermark
              == Raised(old(log.highWatermark), LeastOf(log.nextOffset, self, progress, isr), log.nextOffset)
      ensures forall off {:trigger Reachable(off, log.nextOffset, self, progress, isr)}
                | Reachable(off, log.nextOffset, self, progress, isr) :: off <= log.highWatermark
      ensures log.highWatermark == old(log.highWatermark)
              || (log.highWatermark > old(log.highWatermark)
                  && Reachable(log.highWatermark, log.nextOffset, self, progress, isr))
    {
      LeastIs(log.nextOffset, self, progress, isr);
      RaisedIs(log.highWatermark, LeastOf(log.nextOffset, self, progress, isr), log.nextOffset);
      var hwm := LeastLoop(log.nextOffset, self, progress, isr);
      log.SetHighWatermark(hwm);
    }

    /** The state t of the protocol is this leader's: the log holds what retention has left of t's. */
    ghost predicate Shows(t: Term, isr: seq<int>)
      reads this, log, log.active
    {
      && t.self == self && t.progress == progress && t.isr == isr && t.hwm == log.highWatermark
      && Holds(t.log, log.Contents(), log.EarliestOffset(), log.nextOffset)
    }

    /** The fetch handler for a follower: reads at its offset, takes the high watermark to report,
        then records the follower's progress and advances the high watermark. If the leader was in
        state t of the protocol and the request had been sent, handling it with the batches read is
        a step of the protocol, and the leader now is in the state after it. */
    method ServeReplica(id: int, off: int, maxBytes: int, isr: seq<int>, ghost t: Term)
        returns (r: ReadResult, hwm: int, ghost bs: seq<Batch>)
      requires log.Valid()
      modifies this, log`highWatermark
      ensures log.Valid() && progress == old(progress)[id := off]
      ensures r == BackendRead(ChunksOf(log.views), log.EarliestOffset(), log.nextOffset, off, maxBytes)
      ensures r == (if off < log.EarliestOffset() || off > log.nextOffset then OutOfRange else Data(Concat(bs)))
      ensures r.OutOfRange? ==> bs == []
      ensures old(Shows(t, isr)) && OnBoundary(t.log, off) ==> Serves(t.log, off, bs)
      ensures old(Shows(t, isr)) && TermOk(t) && Request(id, off) in t.requests
              ==> Enabled(t, DoHandle(Request(id, off), bs))
      ensures old(Shows(t, isr)) ==> Shows(Handle(t, Request(id, off), bs), isr) && hwm == t.hwm
      ensures hwm == old(log.highWatermark)
      ensures log.highWatermark
              == Raised(old(log.highWatermark), LeastOf(log.nextOffset, self, progress, isr), log.nextOffset)
    {
      r, bs := ReadRun(log, off, maxBytes, t.log);
      if TermOk(t) && Request(id, off) in t.requests {
        assert Reached(t, id, off);
      }
      hwm := log.highWatermark;
      progress := progress[id := off];
      AdvanceHighWatermark(isr);
    }
  }

  /** Read, with the batches it returns named: they are what the protocol may serve from the whole
      log all that this one holds the rest of. */
  method ReadRun(log: Log, off: int, maxBytes: int, ghost all: seq<Batch>) returns (r: ReadResult, ghost bs: seq<Batch>)
    requires log.Valid()
    ensures r == BackendRead(ChunksOf(log.views), log.EarliestOffset(), log.nextOffset, off, maxBytes)
    ensures r == (if off < log.EarliestOffset() || off > log.nextOffset then OutOfRange else Data(Concat(bs)))
    ensures r.OutOfRange? ==> bs == []
    ensures Holds(all, log.Contents(), log.EarliestOffset(), log.nextOffset) && OnBoundary(all, off)
            ==> Serves(all, off, bs)
  {
    r := log.Read(off, maxBytes);
    log.EarliestIsFirst();
    LayoutAt(log.views, log.nextOffset, 0);
    bs := ReadBatches(log.views, log.EarliestOffset(), log.nextOffset, off, maxBytes);
    if Holds(all, log.Contents(), log.EarliestOffset(), log.nextOffset) && OnBoundary(all, off) {
      ReadServes(all, log.views, log.nextOffset, off, maxBytes);
    }
  }

  /** A log that starts at earliest and ends at next holds what is left of all. */
  predicate Holds(all: seq<Batch>, held: seq<Batch>, earliest: int, next: int)
  {
    Chain(all, 0, Leo(all)) && Leo(all) == next && held == Skip(all, earliest)
  }

  function ReadBatches(vs: seq<SegView>, earliest: int, next: int, off: int, maxBytes: int): seq<Batch>
  {
    if earliest <= off < next then ReadAt(ChunksOf(vs), earliest, off, maxBytes) else []
  }

  lemma ReadServes(all: seq<Batch>, vs: seq<SegView>, next: int, off: int, maxBytes: int)
    requires Layout(vs, next) && Holds(all, Stored(vs), vs[0].base, next) && OnBoundary(all, off)
    ensures Serves(all, off, ReadBatches(vs, vs[0].base, next, off, maxBytes))
  {
    if vs[0].base <= off < next {
      LayoutTiled(vs, next);
      BackendServes(all, ChunksOf(vs), vs[0].base, off, maxBytes);
    }
  }

  // ---------------------------------------------------------------- applying a response

  /** The log is the follower f's: it holds what retention has left of f's log. */
  ghost predicate IsFollower(log: Log, f: Follower)
    reads log, log.active
  {
    f.hwm == log.highWatermark && Holds(f.log, log.Contents(), log.EarliestOffset(), log.nextOffset)
  }

  /** The follower's side of one fetch: walks the returned bytes, appends each batch, stops at
      a gap, and takes over the leader's high watermark unless there was one. An unreadable
      tail is ignored. If the log was that of follower r.id in state t of the protocol, it now is
      the follower's after applying the response r. */
  method ApplyResponse(log: Log, records: seq<byte>, ghost r: Response, hwm: int, ghost tail: seq<byte>, ghost t: Term)
      returns (ok: bool)
    requires log.Valid() && Sound(r.batches) && Unreadable(tail) && records == Concat(r.batches) + tail && hwm == r.hwm
    modifies log, log.active
    ensures log.Valid() && ok == Taken(old(log.nextOffset), r.batches).1
    ensures log.Contents() == old(log.Contents()) + Taken(old(log.nextOffset), r.batches).0
    ensures r.id in t.followers && old(IsFollower(log, t.followers[r.id]))
            ==> IsFollower(log, Apply(t, r).followers[r.id])
  {
    ghost var bs, had, start, from := r.batches, log.Contents(), log.nextOffset, log.views[0].base;
    log.EarliestIsFirst();
    LayoutAt(log.views, log.nextOffset, 0);
    WalkBatches(bs, tail);
    var batches, consumed, whole := Iterate(records);
    ok := ApplyBatches(log, batches, bs);
    log.EarliestIsFirst();
    if ok {
      log.SetHighWatermark(hwm);
    }
    if r.id in t.followers && Holds(t.followers[r.id].log, had, from, start) {
      TakenHeld(t.followers[r.id].log, had, from, start, bs);
    }
  }

  /** What a response adds to a follower's log it adds to the part that is retained. */
  lemma TakenHeld(all: seq<Batch>, held: seq<Batch>, from: int, next: int, bs: seq<Batch>)
    requires Holds(all, held, from, next) && from <= next && Sound(bs)
    ensures var more := Taken(next, bs).0; Holds(all + more, held + more, from, EndOf(more, next))
  {
    var more := Taken(next, bs).0;
    TakenChain(next, bs);
    ChainJoin(all, more, 0, next, EndOf(more, next));
    ChainEnd(all + more, EndOf(more, next));
    ChainBounds(more, next, EndOf(more, next));
    SkipJoin(all, more, from);
  }

  lemma {:induction false} TakenChain(next: int, bs: seq<Batch>)
    requires Sound(bs)
    ensures Chain(Taken(next, bs).0, next, EndOf(Taken(next, bs).0, next))
    decreases |bs|
  {
    if bs != [] {
      assert WellFormed(bs[0]);
      if bs[0].base < next {
        TakenChain(next, bs[1..]);
      } else if bs[0].base == next {
        TakenChain(bs[0].next, bs[1..]);
        var rest := Taken(bs[0].next, bs[1..]).0;
        assert ([bs[0]] + rest)[1..] == rest;
      }
    }
  }

  lemma {:induction false} SkipJoin(bs: seq<Batch>, cs: seq<Batch>, want: int)
    requires cs != [] ==> cs[0].next > want
    ensures Skip(bs + cs, want) == Skip(bs, want) + cs
  {
    if bs == [] {
      assert bs + cs == cs;
    } else {
      assert (bs + cs)[1..] == bs[1..] + cs;
      if bs[0].next <= want {
        SkipJoin(bs[1..], cs, want);
      }
    }
  }

  method ApplyBatches(log: Log, batches: seq<seq<byte>>, ghost bs: seq<Batch>) returns (ok: bool)
    requires log.Valid() && Sound(bs) && |batches| == |bs| && forall i | 0 <= i < |bs| :: batches[i] == bs[i].bytes
    modifies log, log.active
    ensures log.Valid() && (log.active == old(log.active) || fresh(log.active))
            && log.views[0].base == old(log.views[0].base)
    ensures log.highWatermark == old(log.highWatermark) && ok == Taken(old(log.nextOffset), bs).1
    ensures log.Contents() == old(log.Contents()) + Taken(old(log.nextOffset), bs).0
    ensures log.nextOffset == EndOf(Taken(old(log.nextOffset), bs).0, old(log.nextOffset))
  {
    ok := true;
    ghost var had, start := log.Contents(), log.nextOffset;
    var i := 0;
    assert bs[0..] == bs;
    while i < |batches| && ok
      invariant 0 <= i <= |batches| && log.Valid() && (log.active == old(log.active) || fresh(log.active))
      invariant log.highWatermark == old(log.highWatermark) && log.views[0].base == old(log.views[0].base)
      invariant Progress(had, start, bs, i, ok, log.Contents(), log.nextOffset)
    {
      ok := ApplyOne(log, batches[i], had, start, bs, i);
      i := i + 1;
    }
    ProgressEnd(had, start, bs, i, ok, log.Contents(), log.nextOffset);
  }

  /** AppendReplica of one batch of a response. */
  method ApplyOne(log: Log, batch: seq<byte>, ghost had: seq<Batch>, ghost start: int, ghost bs: seq<Batch>,
                  ghost i: nat)
      returns (ok: bool)
    requires log.Valid() && Sound(bs) && i < |bs| && batch == bs[i].bytes
    requires Progress(had, start, bs, i, true, log.Contents(), log.nextOffset)
    modifies log, log.active
    ensures log.Valid() && (log.active == old(log.active) || fresh(log.active))
    ensures log.highWatermark == old(log.highWatermark) && log.views[0].base == old(log.views[0].base)
    ensures Progress(had, start, bs, i + 1, ok, log.Contents(), log.nextOffset)
  {
    assert WellFormed(bs[i]);
    ghost var before, next := log.Contents(), log.nextOffset;
    var leo;
    leo, ok := log.AppendReplica(batch);
    ProgressStep(had, start, bs, i, before, next, ok, log.Contents(), log.nextOffset);
  }

  lemma ProgressEnd(had: seq<Batch>, start: int, bs: seq<Batch>, i: nat, ok: bool, now: seq<Batch>, next: int)
    requires Progress(had, start, bs, i, ok, now, next) && (i == |bs| || !ok)
    ensures now == had + Taken(start, bs).0 && ok == Taken(start, bs).1 && next == EndOf(Taken(start, bs).0, start)
  {
    if ok {
      assert bs[i..] == [] && now + [] == now;
    }
  }

  /** i batches of a response are dealt with: what was appended so far, and what the rest will add. */
  ghost predicate Progress(had: seq<Batch>, start: int, bs: seq<Batch>, i: nat, ok: bool, now: seq<Batch>, next: int)
  {
    && i <= |bs|
    && var (all, good) := Taken(start, bs);
       var (rest, rest_ok) := Taken(next, bs[i..]);
       if ok then had + all == now + rest && good == rest_ok && EndOf(all, start) == EndOf(rest, next)
       else had + all == now && !good && EndOf(all, start) == next
  }

  lemma ProgressStep(had: seq<Batch>, start: int, bs: seq<Batch>, i: nat, before: seq<Batch>, next: int,
                     ok: bool, now: seq<Batch>, next': int)
    requires i < |bs| && Progress(had, start, bs, i, true, before, next)
    requires ok <==> bs[i].base <= next
    requires if bs[i].base == next then now == before + [bs[i]] && next' == bs[i].next
             else now == before && next' == next
    ensures Progress(had, start, bs, i + 1, ok, now, next')
  {
    assert bs[i..][0] == bs[i] && bs[i..][1..] == bs[i + 1..];
    if bs[i].base == next {
      Associative(before, [bs[i]], Taken(next', bs[i + 1..]).0);
    }
  }

  // ---------------------------------------------------------------- consumers

  /** Some batch of the run holds the record at offset o. */
  predicate Covers(bs: seq<Batch>, o: int)
  {
    exists i | 0 <= i < |bs| :: bs[i].base <= o < bs[i].next
  }

  /** The offset falls strictly inside a batch. */
  predicate Splits(bs: seq<Batch>, off: int)
  {
    exists i | 0 <= i < |bs| :: bs[i].base < off < bs[i].next
  }

  /** clampToHighWatermark: keeps the leading batches that end at or below the high watermark. */
  method Clamp(data: seq<byte>, hwm: int, ghost bs: seq<Batch>, ghost from: int, ghost to: int) returns (out: seq<byte>)
    requires Sound(bs) && Chain(bs, from, to) && data == Concat(bs)
    ensures out == Concat(Below(bs, hwm))
  {
    if |data| == 0 {
      NoBytes(bs);
      return data;
    }
    var keep := 0;
    ghost var n := 0;
    PosEnds(bs);
    ghost var m := BelowIsPrefix(bs, from, to, hwm);
    while keep < |data|
      invariant n <= m && keep == PosOf(bs, n) <= |data|
      decreases |data| - keep
    {
      if n == |bs| {
        assert false;
      }
      var total, last := HeaderOfBatch(data, keep, bs, n);
      if last >= hwm {
        StopHere(bs, from, to, hwm, n, m);
        break;
      }
      GoOn(bs, from, to, hwm, n, m);
      keep := keep + total;
      n := n + 1;
    }
    if n < m {
      PosMonotone(bs, n, |bs|);
      assert false;
    }
    out := data[..keep];
    assert bs == bs[..n] + bs[n..];
    ConcatJoin(bs[..n], bs[n..]);
  }

  lemma NoBytes(bs: seq<Batch>)
    requires Sound(bs) && Concat(bs) == []
    ensures bs == []
  {
    if bs != [] {
      NonEmptyBytes(bs);
    }
  }

  lemma StopHere(bs: seq<Batch>, from: int, to: int, hwm: int, n: nat, m: nat)
    requires Chain(bs, from, to) && n < |bs| && n <= m <= |bs| && bs[n].next > hwm
    requires m > 0 ==> bs[m - 1].next <= hwm
    ensures n == m
  {
    ChainBounds(bs, from, to);
    if n < m - 1 {
      ChainOrdered(bs, from, to, n, m - 1);
    }
  }

  lemma GoOn(bs: seq<Batch>, from: int, to: int, hwm: int, n: nat, m: nat)
    requires Chain(bs, from, to) && n < |bs| && n <= m <= |bs| && bs[n].next <= hwm
    requires m < |bs| ==> hwm < bs[m].next
    ensures n < m
  {
  }

  /** A consumer is shown exactly the records below the high watermark, if and only if the high
      watermark does not fall inside one of the batches read. */
  lemma ClampExact(bs: seq<Batch>, from: int, to: int, hwm: int)
    requires Chain(bs, from, to)
    ensures (forall o :: Covers(Below(bs, hwm), o) <==> Covers(bs, o) && o < hwm) <==> !Splits(bs, hwm)
  {
    var n := BelowIsPrefix(bs, from, to, hwm);
    var kept := bs[..n];
    ChainBounds(bs, from, to);
    forall i | 0 <= i < n ensures bs[i].next <= hwm {
      if i < n - 1 {
        ChainOrdered(bs, from, to, i, n - 1);
      }
    }
    forall i | n < i < |bs| ensures hwm < bs[i].base {
      ChainOrdered(bs, from, to, n, i);
    }
    forall o | Covers(kept, o) ensures Covers(bs, o) && o < hwm {
      var i :| 0 <= i < |kept| && kept[i].base <= o < kept[i].next;
      assert bs[i] == kept[i];
    }
    if Splits(bs, hwm) {
      var i :| 0 <= i < |bs| && bs[i].base < hwm < bs[i].next;
      assert i == n;
      var o := bs[n].base;
      assert Covers(bs, o) && o < hwm;
      if Covers(kept, o) {
        var k :| 0 <= k < |kept| && kept[k].base <= o < kept[k].next;
        ChainOrdered(bs, from, to, k, n);
      }
    } else {
      forall o | Covers(bs, o) && o < hwm ensures Covers(kept, o) {
        var i :| 0 <= i < |bs| && bs[i].base <= o < bs[i].next;
        assert i < n && kept[i] == bs[i];
      }
    }
  }

  /** And within a term it never does, whatever run of the leader's log was read. */
  lemma HwmNeverSplits(states: seq<Term>, steps: seq<Step>, n: nat, bs: seq<Batch>)
    requires Run(states, steps) && n < |states| && IsRun(states[n].log, bs)
    ensures !Splits(bs, states[n].hwm)
  {
    RunOk(states, steps, n, n);
    var log, hwm := states[n].log, states[n].hwm;
    var k :| StartsAt(log, k, hwm);
    var i, j :| RunAt(log, i, j, bs);
    ChainBounds(log, 0, Leo(log));
    if Splits(bs, hwm) {
      var x :| 0 <= x < |bs| && bs[x].base < hwm < bs[x].next;
      assert bs[x] == log[i + x];
      if i + x < k {
        ChainOrdered(log, 0, Leo(log), i + x, k);
      } else if k < i + x {
        ChainOrdered(log, 0, Leo(log), k, i + x);
      }
    }
  }

  // ---------------------------------------------------------------- acks=all

  /** A batch once the log has given it offset off. */
  function Given(b: Batch, off: int, crc: seq<byte> -> nat): Batch
    requires |b.bytes| >= 21
  {
    Batch(off, off + (b.next - b.base), b.maxTs, Assigned(b.bytes, off, crc))
  }

  function Span(bs: seq<Batch>): int
  {
    if bs == [] then 0 else Span(bs[..|bs| - 1]) + (bs[|bs| - 1].next - bs[|bs| - 1].base)
  }

  function GivenAll(bs: seq<Batch>, off: int, crc: seq<byte> -> nat): (gs: seq<Batch>)
    requires forall i | 0 <= i < |bs| :: |bs[i].bytes| >= 21
    ensures |gs| == |bs|
  {
    if bs == [] then []
    else
      var n := |bs| - 1;
      GivenAll(bs[..n], off, crc) + [Given(bs[n], off + Span(bs[..n]), crc)]
  }

  lemma LongEnough(bs: seq<Batch>)
    requires Sound(bs)
    ensures forall i | 0 <= i < |bs| :: |bs[i].bytes| >= 21
  {
    forall i | 0 <= i < |bs| ensures |bs[i].bytes| >= 21 {
      assert WellFormed(bs[i]);
    }
  }

  lemma {:induction false} SpanGrows(bs: seq<Batch>, i: nat)
    requires Sound(bs) && i <= |bs|
    ensures 0 <= Span(bs[..i]) <= Span(bs)
    decreases |bs|
  {
    if bs != [] {
      var n := |bs| - 1;
      assert WellFormed(bs[n]);
      if i < |bs| {
        SpanGrows(bs[..n], i);
        assert bs[..n][..i] == bs[..i];
      } else {
        SpanGrows(bs[..n], n);
        assert bs[..i] == bs && bs[..n][..n] == bs[..n];
      }
    }
  }

  lemma {:induction false} GivenChain(bs: seq<Batch>, off: int, crc: seq<byte> -> nat)
    requires Sound(bs)
    ensures forall i | 0 <= i < |bs| :: |bs[i].bytes| >= 21
    ensures Chain(GivenAll(bs, off, crc), off, off + Span(bs))
  {
    LongEnough(bs);
    if bs != [] {
      var n := |bs| - 1;
      GivenChain(bs[..n], off, crc);
      var g := Given(bs[n], off + Span(bs[..n]), crc);
      assert WellFormed(bs[n]) && [g][1..] == [];
      ChainJoin(GivenAll(bs[..n], off, crc), [g], off, g.base, g.next);
    }
  }

  /** The stored batch is the given one. */
  lemma GivenIs(b: Batch, off: int, crc: seq<byte> -> nat)
    requires WellFormed(b) && FitsInt(off, 8)
    ensures |b.bytes| >= HEADER_SIZE && ParseHeader(b.bytes).Ok? && IsBatch(b.bytes)
    ensures IsBatch(Assigned(b.bytes, off, crc)) && ToBatch(Assigned(b.bytes, off, crc)) == Given(b, off, crc)
  {
    HeaderOf(b, b.bytes);
    AssignedIsBatch(b.bytes, off, crc);
  }

  /** i batches of a request are stored. */
  ghost predicate Produced(had: seq<Batch>, start: int, bs: seq<Batch>, i: nat, crc: seq<byte> -> nat,
                           now: seq<Batch>, next: int)
    requires i <= |bs| && forall k | 0 <= k < |bs| :: |bs[k].bytes| >= 21
  {
    now == had + GivenAll(bs[..i], start, crc) && next == start + Span(bs[..i])
  }

  lemma ProducedNext(had: seq<Batch>, start: int, bs: seq<Batch>, i: nat, crc: seq<byte> -> nat, now: seq<Batch>,
                     next: int)
    requires i < |bs| && forall k | 0 <= k < |bs| :: |bs[k].bytes| >= 21
    requires Produced(had, start, bs, i, crc, now, next)
    ensures Produced(had, start, bs, i + 1, crc, now + [Given(bs[i], next, crc)], next + (bs[i].next - bs[i].base))
  {
    assert bs[..i + 1][..i] == bs[..i];
    Associative(had, GivenAll(bs[..i], start, crc), [Given(bs[i], next, crc)]);
  }

  method ProduceOne(log: Log, batch: seq<byte>, crc: seq<byte> -> nat, ghost b: Batch) returns (off: int, ok: bool)
    requires log.Valid() && WellFormed(b) && batch == b.bytes && FitsInt(log.nextOffset, 8) && |b.bytes| >= 21
    modifies log, log.active
    ensures log.Valid() && (log.active == old(log.active) || fresh(log.active))
    ensures ok && off == old(log.nextOffset) && log.nextOffset == Given(b, off, crc).next
    ensures log.views[0].base == old(log.views[0].base)
    ensures log.Contents() == old(log.Contents()) + [Given(b, off, crc)]
  {
    GivenIs(b, log.nextOffset, crc);
    var buf := new byte[|batch|](i requires 0 <= i < |batch| => batch[i]);
    assert buf[..] == batch;
    off, ok := log.Append(buf, crc);
  }

  /** produce, for one partition: appends the batches of a request one after the other and answers
      with the first one's offset. With acks=all it waits for the log end to be committed, but
      only if there was something to append and the record set could be read to its end. */
  method Produce(log: Log, records: seq<byte>, acksAll: bool, crc: seq<byte> -> nat, ghost bs: seq<Batch>,
                 ghost tail: seq<byte>, ghost all: seq<Batch>)
      returns (base: int, waits: bool, target: int)
    requires log.Valid() && Sound(bs) && Unreadable(tail) && records == Concat(bs) + tail
    requires 0 <= log.nextOffset && FitsInt(log.nextOffset + Span(bs), 8)
    modifies log, log.active
    ensures log.Valid() && (forall i | 0 <= i < |bs| :: |bs[i].bytes| >= 21)
    ensures log.Contents() == old(log.Contents()) + GivenAll(bs, old(log.nextOffset), crc)
    ensures old(Holds(all, log.Contents(), log.EarliestOffset(), log.nextOffset))
            ==> Holds(all + GivenAll(bs, old(log.nextOffset), crc), log.Contents(), log.EarliestOffset(),
                      log.nextOffset)
    ensures base == (if bs == [] then -1 else old(log.nextOffset)) && waits == (acksAll && tail == [] && bs != [])
    ensures target == log.nextOffset == old(log.nextOffset) + Span(bs)
  {
    ghost var had, start, from := log.Contents(), log.nextOffset, log.views[0].base;
    log.EarliestIsFirst();
    LayoutAt(log.views, log.nextOffset, 0);
    WalkBatches(bs, tail);
    var batches, consumed, whole := Iterate(records);
    LongEnough(bs);
    assert bs[..|bs|] == bs;
    base := ProduceAll(log, batches, crc, bs);
    log.EarliestIsFirst();
    waits := acksAll && whole && base >= 0;
    target := log.nextOffset;
    if Holds(all, had, from, start) {
      GivenHeld(all, had, from, start, bs, crc);
    }
  }

  lemma {:induction false} GivenHeld(all: seq<Batch>, held: seq<Batch>, from: int, next: int, bs: seq<Batch>,
                                     crc: seq<byte> -> nat)
    requires Holds(all, held, from, next) && from <= next && Sound(bs)
    requires forall i | 0 <= i < |bs| :: |bs[i].bytes| >= 21
    ensures var more := GivenAll(bs, next, crc); Holds(all + more, held + more, from, next + Span(bs))
  {
    var more := GivenAll(bs, next, crc);
    GivenChain(bs, next, crc);
    ChainJoin(all, more, 0, next, next + Span(bs));
    ChainEnd(all + more, next + Span(bs));
    ChainBounds(more, next, next + Span(bs));
    SkipJoin(all, more, from);
  }

  method ProduceAll(log: Log, batches: seq<seq<byte>>, crc: seq<byte> -> nat, ghost bs: seq<Batch>) returns (base: int)
    requires log.Valid() && Sound(bs) && |batches| == |bs| && forall i | 0 <= i < |bs| :: batches[i] == bs[i].bytes
    requires 0 <= log.nextOffset && FitsInt(log.nextOffset + Span(bs), 8)
    requires forall i | 0 <= i < |bs| :: |bs[i].bytes| >= 21
    modifies log, log.active
    ensures log.Valid() && base == (if bs == [] then -1 else old(log.nextOffset))
    ensures log.views[0].base == old(log.views[0].base)
    ensures Produced(old(log.Contents()), old(log.nextOffset), bs, |bs|, crc, log.Contents(), log.nextOffset)
  {
    base := -1;
    ghost var had, start := log.Contents(), log.nextOffset;
    for i := 0 to |batches|
      invariant log.Valid() && (log.active == old(log.active) || fresh(log.active))
      invariant Produced(had, start, bs, i, crc, log.Contents(), log.nextOffset)
      invariant base == (if i == 0 then -1 else start) && log.views[0].base == old(log.views[0].base)
    {
      SpanGrows(bs, i);
      assert WellFormed(bs[i]);
      ProducedNext(had, start, bs, i, crc, log.Contents(), log.nextOffset);
      var off, added := ProduceOne(log, batches[i], crc, bs[i]);
      if base < 0 {
        base := off;
      }
    }
  }

  /** committed: polls the high watermark, seen as the values it returned before the deadline,
      until it reaches the target. */
  method Committed(polls: seq<int>, target: int) returns (ok: bool)
    ensures ok <==> exists i | 0 <= i < |polls| :: polls[i] >= target
  {
    for i := 0 to |polls|
      invariant forall k | 0 <= k < i :: polls[k] < target
    {
      if polls[i] >= target {
        return true;
      }
    }
    return false;
  }

  /** An acks=all answer for the batches gs reports no error: it did not wait, or a poll showed a
      high watermark at the target. */
  predicate NoError(gs: seq<Batch>, whole: bool, polls: seq<int>, target: int)
  {
    !(whole && gs != []) || exists i | 0 <= i < |polls| :: polls[i] >= target
  }

  /** awaitCommit, for one partition. */
  method AwaitCommit(base: int, waits: bool, target: int, polls: seq<int>, ghost gs: seq<Batch>, ghost whole: bool)
      returns (answer: int, timedOut: bool)
    requires waits == (whole && gs != [])
    ensures timedOut <==> !NoError(gs, whole, polls, target)
    ensures answer == if timedOut then -1 else base
  {
    answer, timedOut := base, false;
    if waits {
      var ok := Committed(polls, target);
      if !ok {
        answer, timedOut := -1, true;
      }
    }
  }

  /** In a run of a term that starts in t, gs are appended at the steps at, in whatever company;
      when all of them are, in state m, the handler takes the log end as its target, polls the
      high watermark and answers in state n. */
  ghost predicate Answers(t: Term, gs: seq<Batch>, states: seq<Term>, steps: seq<Step>, at: seq<nat>, m: nat, n: nat,
                          polls: seq<int>)
  {
    && Run(states, steps) && states[0] == t && m <= n < |states|
    && |at| == |gs| && (forall i | 0 <= i < |gs| :: at[i] < m && steps[at[i]].DoAppend? && steps[at[i]].b == gs[i])
    && (forall i | 0 <= i < |polls| :: exists k :: m <= k <= n && states[k].hwm == polls[i])
  }

  predicate AllCommitted(t: Term, gs: seq<Batch>)
  {
    forall g | g in gs :: g in Below(t.log, t.hwm)
  }

  lemma AppendedIn(states: seq<Term>, steps: seq<Step>, a: nat, m: nat)
    requires Run(states, steps) && a < m < |states| && steps[a].DoAppend?
    ensures steps[a].b in states[m].log
  {
    RunOk(states, steps, a + 1, m);
    assert Enabled(states[a], steps[a]);
    var log := states[a].log + [steps[a].b];
    assert states[a + 1].log == log && log[|states[a].log|] == steps[a].b;
    assert states[m].log[|states[a].log|] == steps[a].b;
  }

  lemma WaitedIsCommitted(t: Term, gs: seq<Batch>, states: seq<Term>, steps: seq<Step>, at: seq<nat>, m: nat, n: nat,
                          polls: seq<int>)
    requires Answers(t, gs, states, steps, at, m, n, polls) && gs != [] && NoError(gs, true, polls, Leo(states[m].log))
    ensures AllCommitted(states[n], gs)
  {
    var i :| 0 <= i < |polls| && polls[i] >= Leo(states[m].log);
    var k :| m <= k <= n && states[k].hwm == polls[i];
    RunOk(states, steps, k, n);
    AckedIsCommitted(states, steps, m, n);
    forall g | g in gs ensures g in Below(states[n].log, states[n].hwm) {
      var j :| 0 <= j < |gs| && gs[j] == g;
      AppendedIn(states, steps, at[j], m);
      var x :| 0 <= x < |states[m].log| && states[m].log[x] == g;
      assert Below(states[n].log, states[n].hwm)[x] == g;
    }
  }

  /** The leader appends gs with nothing in between. */
  lemma {:induction false} AppendRun(t: Term, gs: seq<Batch>, to: int)
      returns (states: seq<Term>, steps: seq<Step>, at: seq<nat>)
    requires TermOk(t) && Chain(gs, Leo(t.log), to)
    ensures Answers(t, gs, states, steps, at, |gs|, |gs|, []) && |states| == |gs| + 1
    ensures states[|gs|].hwm == t.hwm && states[|gs|].log == t.log + gs
    decreases |gs|
  {
    if gs == [] {
      states, steps, at := [t], [], [];
      assert t.log + [] == t.log;
    } else {
      var n := |gs| - 1;
      ChainSplit(gs, n, Leo(t.log), to);
      ChainBounds(gs, Leo(t.log), to);
      ChainJoin(t.log, gs[..n], 0, Leo(t.log), gs[n].base);
      ChainEnd(t.log + gs[..n], gs[n].base);
      states, steps, at := AppendRun(t, gs[..n], gs[n].base);
      states, steps, at := AppendMore(t, gs[..n], gs[n], states, steps, at);
      assert gs == gs[..n] + [gs[n]];
    }
  }

  lemma AppendMore(t: Term, gs: seq<Batch>, g: Batch, states: seq<Term>, steps: seq<Step>, at: seq<nat>)
      returns (states': seq<Term>, steps': seq<Step>, at': seq<nat>)
    requires Answers(t, gs, states, steps, at, |gs|, |gs|, []) && |states| == |gs| + 1
    requires states[|gs|].hwm == t.hwm && states[|gs|].log == t.log + gs && Leo(t.log + gs) == g.base < g.next
    ensures Answers(t, gs + [g], states', steps', at', |gs| + 1, |gs| + 1, []) && |states'| == |gs| + 2
    ensures states'[|gs| + 1].hwm == t.hwm && states'[|gs| + 1].log == t.log + (gs + [g])
  {
    var n := |gs|;
    var a := DoAppend(g, true);
    states', steps', at' := states + [Do(states[n], a)], steps + [a], at + [n];
    forall i | 0 <= i < |steps'| ensures Enabled(states'[i], steps'[i]) && states'[i + 1] == Do(states'[i], steps'[i]) {
      if i < n {
        assert Enabled(states[i], steps[i]);
      }
    }
    Associative(t.log, gs, [g]);
  }

  lemma UnwaitedNotCommitted(t: Term, gs: seq<Batch>, to: int, states: seq<Term>, n: nat)
    requires TermOk(t) && Chain(gs, Leo(t.log), to) && gs != [] && n < |states|
    requires states[n].hwm == t.hwm && states[n].log == t.log + gs
    ensures !AllCommitted(states[n], gs)
  {
    BoundaryBelow(t.log, t.hwm);
    ChainJoin(t.log, gs, 0, Leo(t.log), to);
    var k := BelowIsPrefix(t.log + gs, 0, to, t.hwm);
    ChainBounds(gs, Leo(t.log), to);
    var below := Below(t.log + gs, t.hwm);
    if gs[0] in below {
      var x :| 0 <= x < |below| && below[x] == gs[0];
      ChainBounds(t.log + gs, 0, to);
      if x < k - 1 {
        ChainOrdered(t.log + gs, 0, to, x, k - 1);
      }
    }
    assert gs[0] in gs;
  }

  /** acks=all, exactly: whatever state the leader appends in, an answer without an error means
      that the batches are committed, in every run, if and only if the record set was read to its
      end or nothing was appended. A set with an unreadable tail is answered at once. */
  lemma AcksAllExact(t: Term, gs: seq<Batch>, to: int, whole: bool)
    requires TermOk(t) && Chain(gs, Leo(t.log), to)
    ensures (forall states: seq<Term>, steps, at, m: nat, n: nat, polls
               {:trigger Answers(t, gs, states, steps, at, m, n, polls)} |
               Answers(t, gs, states, steps, at, m, n, polls) && NoError(gs, whole, polls, Leo(states[m].log)) ::
               AllCommitted(states[n], gs))
            <==> whole || gs == []
  {
    if whole || gs == [] {
      forall states: seq<Term>, steps, at, m: nat, n: nat, polls |
        Answers(t, gs, states, steps, at, m, n, polls) && NoError(gs, whole, polls, Leo(states[m].log))
        ensures AllCommitted(states[n], gs)
      {
        if gs != [] {
          WaitedIsCommitted(t, gs, states, steps, at, m, n, polls);
        }
      }
    } else {
      var states, steps, at := AppendRun(t, gs, to);
      UnwaitedNotCommitted(t, gs, to, states, |gs|);
      assert Answers(t, gs, states, steps, at, |gs|, |gs|, []) && NoError(gs, whole, [], Leo(states[|gs|].log));
    }
  }
}
