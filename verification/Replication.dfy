/** Replication of one partition within one leader term, as a protocol: the leader appends and
    answers fetches, followers ask for what comes after their log end and append what they are
    sent. Requests and responses may be lost, delayed, reordered and delivered again. */
module Replication {
  import opened Bytes
  import opened Seqs
  import opened Record
  import opened Chunks
  import Metadata

  datatype Follower = Follower(log: seq<Batch>, hwm: int)
  datatype Request = Request(id: int, off: int)
  datatype Response = Response(id: int, batches: seq<Batch>, hwm: int)

  /** progress is the leader's record of the offset each follower last fetched from; requests
      and responses are all the messages ever sent, any of which may still arrive. */
  datatype Term = Term(self: int, log: seq<Batch>, hwm: int, followers: map<int, Follower>,
                       progress: map<int, int>, isr: seq<int>,
                       requests: set<Request>, responses: set<Response>)

  /** A log's end offset. */
  function Leo(log: seq<Batch>): int
  {
    EndOf(log, 0)
  }

  /** Offset off is where batch n of the log starts, or its end. */
  predicate StartsAt(log: seq<Batch>, n: int, off: int)
  {
    0 <= n <= |log| && off == StartOf(log, n, Leo(log))
  }

  ghost predicate OnBoundary(log: seq<Batch>, off: int)
  {
    exists n {:trigger StartsAt(log, n, off)} :: StartsAt(log, n, off)
  }

  predicate RunAt(log: seq<Batch>, i: int, j: int, bs: seq<Batch>)
  {
    0 <= i <= j <= |log| && bs == log[i..j]
  }

  ghost predicate IsRun(log: seq<Batch>, bs: seq<Batch>)
  {
    exists i, j {:trigger RunAt(log, i, j, bs)} :: RunAt(log, i, j, bs)
  }

  // ---------------------------------------------------------------- the steps

  /** advanceHighWatermark: the smallest offset every in-sync follower has reached, a follower
      that was never heard from counting as 0. */
  function LeastOf(leo: int, self: int, progress: map<int, int>, isr: seq<int>): int
  {
    if isr == [] then leo
    else
      var rest, id := LeastOf(leo, self, progress, isr[..|isr| - 1]), isr[|isr| - 1];
      if id == self then rest
      else
        var off := if id in progress then progress[id] else 0;
        if off < rest then off else rest
  }

  function Least(t: Term, isr: seq<int>): int
  {
    LeastOf(Leo(t.log), t.self, t.progress, isr)
  }

  function Advance(t: Term): Term
  {
    t.(hwm := Raised(t.hwm, Least(t, t.isr), Leo(t.log)))
  }

  /** An append on the leader. A replicated log (hold) leaves the high watermark alone. */
  function LeaderAppend(t: Term, b: Batch, hold: bool): Term
  {
    t.(log := t.log + [b], hwm := if hold then t.hwm else b.next)
  }

  /** A follower asks for what follows its log end. */
  function Send(t: Term, id: int): Term
    requires id in t.followers
  {
    t.(requests := t.requests + {Request(id, Leo(t.followers[id].log))})
  }

  /** The leader answers a fetch with the batches bs it read, notes the follower's progress and
      re-derives the high watermark. The response carries the high watermark from before. */
  function Handle(t: Term, q: Request, bs: seq<Batch>): Term
  {
    Advance(t.(responses := t.responses + {Response(q.id, bs, t.hwm)}, progress := t.progress[q.id := q.off]))
  }

  /** AppendReplica on each batch of a response, from a log that ends at next: what is appended,
      and whether no batch left a gap. */
  function Taken(next: int, bs: seq<Batch>): (seq<Batch>, bool)
    decreases |bs|
  {
    if bs == [] then ([], true)
    else if bs[0].base < next then Taken(next, bs[1..])
    else if bs[0].base > next then ([], false)
    else
      var (rest, ok) := Taken(bs[0].next, bs[1..]);
      ([bs[0]] + rest, ok)
  }

  /** One turn of the fetch session with a response in hand. */
  function Apply(t: Term, r: Response): Term
    requires r.id in t.followers
  {
    var f := t.followers[r.id];
    var (more, ok) := Taken(Leo(f.log), r.batches);
    var log := f.log + more;
    var hwm := if ok then Raised(f.hwm, r.hwm, Leo(log)) else f.hwm;
    t.(followers := t.followers[r.id := Follower(log, hwm)])
  }

  datatype Step =
    | DoAppend(b: Batch, hold: bool)
    | DoSend(id: int)
    | DoHandle(q: Request, bs: seq<Batch>)
    | DoAdvance
    | DoApply(r: Response)
    | DoIsr(isr: seq<int>)

  /** What a fetch at an offset may be answered with: nothing, or a run of batches that starts
      with the one at that offset. */
  ghost predicate Serves(log: seq<Batch>, off: int, bs: seq<Batch>)
  {
    bs == [] || exists i, j {:trigger RunAt(log, i, j, bs)} :: RunAt(log, i, j, bs) && StartsAt(log, i, off)
  }

  /** The leader or one of its followers. */
  predicate Known(t: Term, id: int)
  {
    id == t.self || id in t.followers
  }

  /** Replica id holds every batch below the high watermark. */
  predicate CaughtUp(t: Term, id: int)
  {
    id == t.self || (id in t.followers && t.hwm <= Leo(t.followers[id].log))
  }

  ghost predicate Enabled(t: Term, s: Step)
  {
    match s
    case DoAppend(b, hold) => b.base == Leo(t.log) && b.base < b.next
    case DoSend(id) => id in t.followers
    case DoHandle(q, bs) => q in t.requests && Serves(t.log, q.off, bs)
    case DoAdvance => true
    case DoApply(r) => r in t.responses && r.id in t.followers
    case DoIsr(isr) => forall id | id in isr :: Known(t, id)
  }

  function Do(t: Term, s: Step): Term
    requires s.DoSend? ==> s.id in t.followers
    requires s.DoApply? ==> s.r.id in t.followers
  {
    match s
    case DoAppend(b, hold) => LeaderAppend(t, b, hold)
    case DoSend(id) => Send(t, id)
    case DoHandle(q, bs) => Handle(t, q, bs)
    case DoAdvance => Advance(t)
    case DoApply(r) => Apply(t, r)
    case DoIsr(isr) => t.(isr := isr)
  }

  // ---------------------------------------------------------------- the invariant

  predicate FollowerOk(t: Term, id: int)
    requires id in t.followers
  {
    var f := t.followers[id];
    f.log <= t.log && f.hwm <= t.hwm && f.hwm <= Leo(f.log)
  }

  /** An offset a follower asked from is one it still has everything below. */
  ghost predicate Reached(t: Term, id: int, off: int)
  {
    id in t.followers && off <= Leo(t.followers[id].log) && OnBoundary(t.log, off)
  }

  ghost predicate Core(t: Term)
  {
    Chain(t.log, 0, Leo(t.log)) && OnBoundary(t.log, t.hwm) && t.self !in t.followers
  }

  ghost predicate Sent(t: Term, r: Response)
  {
    IsRun(t.log, r.batches) && r.hwm <= t.hwm
  }

  ghost predicate TermOk(t: Term)
  {
    && Core(t)
    && (forall id {:trigger FollowerOk(t, id)} | id in t.followers :: FollowerOk(t, id))
    && (forall q {:trigger Reached(t, q.id, q.off)} | q in t.requests :: Reached(t, q.id, q.off))
    && (forall id {:trigger Reached(t, id, t.progress[id])} | id in t.progress :: Reached(t, id, t.progress[id]))
    && (forall r {:trigger Sent(t, r)} | r in t.responses :: Sent(t, r))
    && (forall id {:trigger Known(t, id)} | id in t.isr :: Known(t, id))
  }

  /** What depends on how the in-sync set was chosen. */
  predicate InSync(t: Term)
  {
    forall id {:trigger CaughtUp(t, id)} | id in t.isr :: CaughtUp(t, id)
  }

  // ---------------------------------------------------------------- logs that are prefixes

  lemma {:induction false} ChainEnd(bs: seq<Batch>, to: int)
    requires Chain(bs, 0, to)
    ensures Leo(bs) == to && 0 <= to && StartsAt(bs, 0, 0) && StartsAt(bs, |bs|, to)
  {
    ChainBounds(bs, 0, to);
  }

  /** A prefix of a log ends where its next batch starts, and longer prefixes end later. */
  lemma PrefixLeo(log: seq<Batch>, n: nat)
    requires Chain(log, 0, Leo(log)) && n <= |log|
    ensures Chain(log[..n], 0, Leo(log[..n])) && StartsAt(log, n, Leo(log[..n])) && Leo(log[..n]) <= Leo(log)
  {
    ChainSplit(log, n, 0, Leo(log));
    ChainEnd(log[..n], StartOf(log, n, Leo(log)));
    ChainBounds(log[n..], StartOf(log, n, Leo(log)), Leo(log));
  }

  lemma LeoGrows(log: seq<Batch>, m: nat, n: nat)
    requires Chain(log, 0, Leo(log)) && m <= n <= |log|
    ensures Leo(log[..m]) <= Leo(log[..n])
  {
    PrefixLeo(log, n);
    PrefixLeo(log[..n], m);
    assert log[..n][..m] == log[..m];
  }

  /** Boundaries of a log stay boundaries when it grows. */
  lemma BoundaryStays(log: seq<Batch>, b: Batch, off: int)
    requires OnBoundary(log, off) && b.base == Leo(log)
    ensures OnBoundary(log + [b], off)
  {
    var n :| StartsAt(log, n, off);
    assert StartsAt(log + [b], n, off);
  }

  lemma RunStays(log: seq<Batch>, b: Batch, bs: seq<Batch>)
    requires IsRun(log, bs)
    ensures IsRun(log + [b], bs)
  {
    var i, j :| RunAt(log, i, j, bs);
    SliceLeft(log, [b], i, j);
    assert RunAt(log + [b], i, j, bs);
  }

  /** A follower whose log is the first n batches of the leader's takes from a run i..j of the
      leader's log exactly what it lacks, batches n..j, or refuses a run that starts beyond its
      end. */
  lemma {:induction false} TakenIs(log: seq<Batch>, n: nat, i: nat, j: nat)
    requires Chain(log, 0, Leo(log)) && n <= |log| && i <= j <= |log|
    ensures Taken(StartOf(log, n, Leo(log)), log[i..j])
            == if i == j || j <= n then ([], true) else if i <= n then (log[n..j], true) else ([], false)
    decreases j - i
  {
    if i < j {
      var bs := log[i..j];
      ChainBounds(log, 0, Leo(log));
      assert bs[0] == log[i] && bs[1..] == log[i + 1..j];
      if i < n {
        ChainOrdered(log, 0, Leo(log), i, n);
        TakenIs(log, n, i + 1, j);
      } else if i == n {
        ChainOrdered(log, 0, Leo(log), n, n + 1);
        TakenIs(log, n + 1, i + 1, j);
        assert [log[n]] + log[n + 1..j] == log[n..j];
      } else {
        ChainOrdered(log, 0, Leo(log), n, i);
      }
    }
  }

  // ---------------------------------------------------------------- what each step keeps

  /** The steps only extend logs and raise high watermarks. */
  predicate Extends(t: Term, u: Term)
  {
    && t.log <= u.log && t.hwm <= u.hwm && t.followers.Keys == u.followers.Keys && t.self == u.self
    && forall id | id in t.followers ::
         t.followers[id].log <= u.followers[id].log && t.followers[id].hwm <= u.followers[id].hwm
  }

  lemma AppendKeeps(t: Term, b: Batch, hold: bool)
    requires TermOk(t) && Enabled(t, DoAppend(b, hold))
    ensures TermOk(LeaderAppend(t, b, hold)) && t.hwm <= LeaderAppend(t, b, hold).hwm
  {
    var u := LeaderAppend(t, b, hold);
    assert [b][1..] == [];
    ChainJoin(t.log, [b], 0, b.base, b.next);
    ChainEnd(u.log, b.next);
    BoundaryStays(t.log, b, t.hwm);
    BoundaryBelow(t.log, t.hwm);
    forall id | id in u.followers ensures FollowerOk(u, id) {
      assert FollowerOk(t, id);
    }
    forall q | q in u.requests ensures Reached(u, q.id, q.off) {
      assert Reached(t, q.id, q.off);
      BoundaryStays(t.log, b, q.off);
    }
    forall id | id in u.progress ensures Reached(u, id, u.progress[id]) {
      assert Reached(t, id, t.progress[id]);
      BoundaryStays(t.log, b, t.progress[id]);
    }
    forall r | r in u.responses ensures Sent(u, r) {
      assert Sent(t, r);
      RunStays(t.log, b, r.batches);
    }
    forall id | id in u.isr ensures Known(u, id) {
      assert Known(t, id);
    }
  }

  lemma BoundaryBelow(log: seq<Batch>, off: int)
    requires Chain(log, 0, Leo(log)) && OnBoundary(log, off)
    ensures 0 <= off <= Leo(log)
  {
    var n :| StartsAt(log, n, off);
    ChainBounds(log, 0, Leo(log));
  }

  /** The minimum is on a batch boundary and no in-sync follower is short of it. */
  lemma {:induction false} LeastReached(t: Term, isr: seq<int>)
    requires Core(t) && (forall id | id in isr && id != t.self :: id in t.followers && 0 <= Leo(t.followers[id].log))
    requires forall id {:trigger Reached(t, id, t.progress[id])} | id in t.progress :: Reached(t, id, t.progress[id])
    ensures OnBoundary(t.log, Least(t, isr)) && Least(t, isr) <= Leo(t.log)
    ensures forall id | id in isr && id != t.self :: Least(t, isr) <= Leo(t.followers[id].log)
  {
    ChainEnd(t.log, Leo(t.log));
    if isr != [] {
      var n := |isr| - 1;
      var id := isr[n];
      assert isr == isr[..n] + [id];
      LeastReached(t, isr[..n]);
      if id != t.self && id in t.progress {
        assert Reached(t, id, t.progress[id]);
      }
    }
  }

  /** The offset the leader has on record for a follower, 0 if it was never heard from. */
  function OnRecord(progress: map<int, int>, id: int): int
  {
    if id in progress then progress[id] else 0
  }

  /** The minimum is what it is called: at most the log end and every other in-sync replica's recorded
      offset, and one of these. */
  lemma {:induction false} LeastIs(leo: int, self: int, progress: map<int, int>, isr: seq<int>)
    ensures var m := LeastOf(leo, self, progress, isr);
            && m <= leo && (forall id | id in isr && id != self :: m <= OnRecord(progress, id))
            && (m == leo || exists id :: id in isr && id != self && m == OnRecord(progress, id))
  {
    if isr != [] {
      var n := |isr| - 1;
      assert isr == isr[..n] + [isr[n]];
      LeastIs(leo, self, progress, isr[..n]);
      if LeastOf(leo, self, progress, isr) == LeastOf(leo, self, progress, isr[..n]) < leo {
        var id :| id in isr[..n] && id != self && LeastOf(leo, self, progress, isr[..n]) == OnRecord(progress, id);
        assert id in isr;
      } else if LeastOf(leo, self, progress, isr) < leo {
        var id := isr[n];
        assert id in isr && id != self && LeastOf(leo, self, progress, isr) == OnRecord(progress, id);
      }
    }
  }

  /** Re-deriving the high watermark reaches every offset of the log that all in-sync followers are
      on record for, and goes nowhere else. */
  lemma AdvanceReaches(t: Term, off: int)
    requires off <= Leo(t.log) && forall id | id in t.isr && id != t.self :: off <= OnRecord(t.progress, id)
    ensures Advance(t).hwm >= off
  {
    LeastIs(Leo(t.log), t.self, t.progress, t.isr);
    RaisedIs(t.hwm, Least(t, t.isr), Leo(t.log));
  }

  lemma AdvanceNoFurther(t: Term)
    ensures var h := Advance(t).hwm;
            || h == t.hwm
            || (t.hwm <= h <= Leo(t.log) && forall id | id in t.isr && id != t.self :: h <= OnRecord(t.progress, id))
  {
    LeastIs(Leo(t.log), t.self, t.progress, t.isr);
    RaisedIs(t.hwm, Least(t, t.isr), Leo(t.log));
  }

  lemma FollowerEnds(t: Term, id: int)
    requires TermOk(t) && id in t.followers
    ensures 0 <= Leo(t.followers[id].log) <= Leo(t.log)
    ensures |t.followers[id].log| <= |t.log| && t.followers[id].log == t.log[..|t.followers[id].log|]
    ensures StartsAt(t.log, |t.followers[id].log|, Leo(t.followers[id].log))
  {
    assert FollowerOk(t, id);
    var n := |t.followers[id].log|;
    assert t.followers[id].log == t.log[..n];
    PrefixLeo(t.log, n);
    ChainBounds(t.log[..n], 0, Leo(t.log[..n]));
  }

  lemma AdvanceKeeps(t: Term)
    requires TermOk(t)
    ensures TermOk(Advance(t)) && t.hwm <= Advance(t).hwm
    ensures forall id | id in t.isr && CaughtUp(t, id) :: CaughtUp(Advance(t), id)
  {
    var u := Advance(t);
    forall id | id in t.isr && id != t.self ensures id in t.followers && 0 <= Leo(t.followers[id].log) {
      assert Known(t, id);
      FollowerEnds(t, id);
    }
    LeastReached(t, t.isr);
    BoundaryBelow(t.log, t.hwm);
    forall id | id in u.followers ensures FollowerOk(u, id) {
      assert FollowerOk(t, id);
    }
    forall q | q in u.requests ensures Reached(u, q.id, q.off) {
      assert Reached(t, q.id, q.off);
    }
    forall id | id in u.progress ensures Reached(u, id, u.progress[id]) {
      assert Reached(t, id, t.progress[id]);
    }
    forall r | r in u.responses ensures Sent(u, r) {
      assert Sent(t, r);
    }
    forall id | id in u.isr ensures Known(u, id) {
      assert Known(t, id);
    }
  }

  lemma HandleKeeps(t: Term, q: Request, bs: seq<Batch>)
    requires TermOk(t) && Enabled(t, DoHandle(q, bs))
    ensures TermOk(Handle(t, q, bs)) && t.hwm <= Handle(t, q, bs).hwm
    ensures forall id | id in t.isr && CaughtUp(t, id) :: CaughtUp(Handle(t, q, bs), id)
  {
    var u := t.(responses := t.responses + {Response(q.id, bs, t.hwm)}, progress := t.progress[q.id := q.off]);
    if bs == [] {
      assert RunAt(t.log, 0, 0, bs);
    }
    forall id | id in u.followers ensures FollowerOk(u, id) {
      assert FollowerOk(t, id);
    }
    forall p | p in u.requests ensures Reached(u, p.id, p.off) {
      assert Reached(t, p.id, p.off);
    }
    forall id | id in u.progress ensures Reached(u, id, u.progress[id]) {
      if id == q.id {
        assert Reached(t, q.id, q.off);
      } else {
        assert Reached(t, id, t.progress[id]);
      }
    }
    forall r | r in u.responses ensures Sent(u, r) {
      assert r in t.responses ==> Sent(t, r);
    }
    forall id | id in u.isr ensures Known(u, id) {
      assert Known(t, id);
    }
    AdvanceKeeps(u);
    assert forall id :: CaughtUp(u, id) <==> CaughtUp(t, id);
  }

  lemma SendKeeps(t: Term, id: int)
    requires TermOk(t) && id in t.followers
    ensures TermOk(Send(t, id))
  {
    var u := Send(t, id);
    FollowerEnds(t, id);
    forall j | j in u.followers ensures FollowerOk(u, j) {
      assert FollowerOk(t, j);
    }
    forall q | q in u.requests ensures Reached(u, q.id, q.off) {
      assert q in t.requests ==> Reached(t, q.id, q.off);
    }
    forall j | j in u.progress ensures Reached(u, j, u.progress[j]) {
      assert Reached(t, j, t.progress[j]);
    }
    forall r | r in u.responses ensures Sent(u, r) {
      assert Sent(t, r);
    }
    forall j | j in u.isr ensures Known(u, j) {
      assert Known(t, j);
    }
  }

  /** What a response does to its follower. */
  lemma ApplyExtends(t: Term, r: Response)
    requires TermOk(t) && Enabled(t, DoApply(r))
    ensures var f, g := t.followers[r.id], Apply(t, r).followers[r.id];
            && f.log <= g.log <= t.log && f.hwm <= g.hwm <= t.hwm && Leo(f.log) <= Leo(g.log) && g.hwm <= Leo(g.log)
  {
    assert Sent(t, r) && FollowerOk(t, r.id);
    FollowerEnds(t, r.id);
    var i, j :| RunAt(t.log, i, j, r.batches);
    var n := |t.followers[r.id].log|;
    TakenIs(t.log, n, i, j);
    var m := if j <= n || i > n then n else j;
    assert t.log[..n] + t.log[n..m] == t.log[..m];
    LeoGrows(t.log, n, m);
  }

  lemma ApplyKeeps(t: Term, r: Response)
    requires TermOk(t) && Enabled(t, DoApply(r))
    ensures TermOk(Apply(t, r))
  {
    var u := Apply(t, r);
    ApplyExtends(t, r);
    forall id | id in u.followers ensures FollowerOk(u, id) {
      assert FollowerOk(t, id);
    }
    forall q | q in u.requests ensures Reached(u, q.id, q.off) {
      assert Reached(t, q.id, q.off);
    }
    forall id | id in u.progress ensures Reached(u, id, u.progress[id]) {
      assert Reached(t, id, t.progress[id]);
    }
    forall p | p in u.responses ensures Sent(u, p) {
      assert Sent(t, p);
    }
    forall id | id in u.isr ensures Known(u, id) {
      assert Known(t, id);
    }
  }

  lemma IsrKeeps(t: Term, isr: seq<int>)
    requires TermOk(t) && Enabled(t, DoIsr(isr))
    ensures TermOk(t.(isr := isr))
  {
    var u := t.(isr := isr);
    forall id | id in u.followers ensures FollowerOk(u, id) {
      assert FollowerOk(t, id);
    }
    forall q | q in u.requests ensures Reached(u, q.id, q.off) {
      assert Reached(t, q.id, q.off);
    }
    forall id | id in u.progress ensures Reached(u, id, u.progress[id]) {
      assert Reached(t, id, t.progress[id]);
    }
    forall r | r in u.responses ensures Sent(u, r) {
      assert Sent(t, r);
    }
    forall id | id in u.isr ensures Known(u, id) {
      assert Known(t, id);
    }
  }

  lemma StepKeeps(t: Term, s: Step)
    requires TermOk(t) && Enabled(t, s)
    ensures TermOk(Do(t, s)) && Extends(t, Do(t, s))
  {
    match s
    case DoAppend(b, hold) => AppendKeeps(t, b, hold);
    case DoSend(id) => SendKeeps(t, id);
    case DoHandle(q, bs) => HandleKeeps(t, q, bs);
    case DoAdvance => AdvanceKeeps(t);
    case DoApply(r) =>
      ApplyKeeps(t, r);
      ApplyExtends(t, r);
    case DoIsr(isr) => IsrKeeps(t, isr);
  }

  /** The step does not put replica id in sync short of the high watermark, nor raise the high
      watermark past it by an append that does not wait for followers. */
  predicate Spares(t: Term, s: Step, id: int)
  {
    match s
    case DoAppend(_, hold) => hold || id == t.self || id !in t.isr
    case DoIsr(isr) => id in isr ==> CaughtUp(t, id)
    case _ => true
  }

  /** A replica in sync stays caught up through any other step. */
  lemma StepSpares(t: Term, s: Step, id: int)
    requires TermOk(t) && Enabled(t, s) && Spares(t, s, id) && (id in t.isr ==> CaughtUp(t, id))
    ensures id in Do(t, s).isr ==> CaughtUp(Do(t, s), id)
  {
    match s
    case DoAppend(b, hold) =>
    case DoSend(_) =>
    case DoHandle(q, bs) => HandleKeeps(t, q, bs);
    case DoAdvance => AdvanceKeeps(t);
    case DoApply(r) => ApplyExtends(t, r);
    case DoIsr(isr) =>
  }

  // ---------------------------------------------------------------- every run of a term

  ghost predicate Run(states: seq<Term>, steps: seq<Step>)
  {
    && |states| == |steps| + 1 && TermOk(states[0])
    && forall i {:trigger Enabled(states[i], steps[i])} | 0 <= i < |steps| ::
         Enabled(states[i], steps[i]) && states[i + 1] == Do(states[i], steps[i])
  }

  lemma {:induction false} RunOk(states: seq<Term>, steps: seq<Step>, m: nat, n: nat)
    requires Run(states, steps) && m <= n < |states|
    ensures TermOk(states[n]) && Extends(states[m], states[n])
    decreases n
  {
    if n > 0 {
      RunOk(states, steps, if m < n then m else n - 1, n - 1);
      assert Enabled(states[n - 1], steps[n - 1]);
      StepKeeps(states[n - 1], steps[n - 1]);
      if m < n {
        ExtendsChain(states[m], states[n - 1], states[n]);
      }
    }
  }

  /** Replica id, if it was in sync at the start, was caught up; and no step before state n put it
      in sync while it was short of the high watermark. */
  ghost predicate Admitted(states: seq<Term>, steps: seq<Step>, n: nat, id: int)
    requires n < |states| <= |steps| + 1
  {
    && (id in states[0].isr ==> CaughtUp(states[0], id))
    && forall i {:trigger Spares(states[i], steps[i], id)} | 0 <= i < n :: Spares(states[i], steps[i], id)
  }

  /** Then it is caught up whenever it is in sync. */
  lemma {:induction false} InSyncCaughtUp(states: seq<Term>, steps: seq<Step>, n: nat, id: int)
    requires Run(states, steps) && n < |states| && Admitted(states, steps, n, id)
    ensures id in states[n].isr ==> CaughtUp(states[n], id)
  {
    if n > 0 {
      InSyncCaughtUp(states, steps, n - 1, id);
      RunOk(states, steps, n - 1, n - 1);
      assert Enabled(states[n - 1], steps[n - 1]) && Spares(states[n - 1], steps[n - 1], id);
      StepSpares(states[n - 1], steps[n - 1], id);
    }
  }

  lemma ExtendsChain(t: Term, u: Term, v: Term)
    requires Extends(t, u) && Extends(u, v)
    ensures Extends(t, v)
  {
  }

  /** A partition just created: all logs empty. */
  lemma FreshTermOk(self: int, ids: set<int>, isr: seq<int>)
    requires self !in ids && forall id | id in isr :: id == self || id in ids
    ensures var t := Term(self, [], 0, map id | id in ids :: Follower([], 0), map[], isr, {}, {});
            TermOk(t) && InSync(t)
  {
    var t := Term(self, [], 0, map id | id in ids :: Follower([], 0), map[], isr, {}, {});
    assert StartsAt(t.log, 0, 0);
    assert forall id | id in ids :: FollowerOk(t, id);
    assert forall id | id in isr :: Known(t, id) && CaughtUp(t, id);
  }

  // ---------------------------------------------------------------- what the term guarantees

  /** The batches below an offset. */
  function Below(bs: seq<Batch>, off: int): seq<Batch>
  {
    if bs == [] || bs[0].next > off then [] else [bs[0]] + Below(bs[1..], off)
  }

  lemma {:induction false} BelowIsPrefix(bs: seq<Batch>, from: int, to: int, off: int) returns (n: nat)
    requires Chain(bs, from, to)
    ensures n <= |bs| && Below(bs, off) == bs[..n] && (n > 0 ==> bs[n - 1].next <= off)
            && (n < |bs| ==> off < bs[n].next)
  {
    if bs == [] || bs[0].next > off {
      n := 0;
    } else {
      n := BelowIsPrefix(bs[1..], bs[0].next, to, off);
      assert bs[..n + 1] == [bs[0]] + bs[1..][..n];
      n := n + 1;
    }
  }

  /** Everything below the high watermark is on a caught-up replica: the committed batches are a
      prefix of its log. */
  lemma HoldsCommitted(t: Term, id: int)
    requires TermOk(t) && id in t.followers && CaughtUp(t, id)
    ensures Below(t.log, t.hwm) <= t.followers[id].log
  {
    FollowerEnds(t, id);
    var m := |t.followers[id].log|;
    var n := BelowIsPrefix(t.log, 0, Leo(t.log), t.hwm);
    ChainBounds(t.log, 0, Leo(t.log));
    if m < n - 1 {
      ChainOrdered(t.log, 0, Leo(t.log), m, n - 1);
    }
    assert n <= m;
    assert t.log[..n] <= t.log[..m];
  }

  /** The replication theorem: in every state of every run of a term, whatever happened to the
      messages and whatever in-sync sets were committed, each follower's log is a prefix of the
      leader's, its high watermark is at most its log end and the leader's high watermark, and that
      is on a batch boundary of the leader's log. */
  lemma TermSafety(states: seq<Term>, steps: seq<Step>, n: nat)
    requires Run(states, steps) && n < |states|
    ensures var t := states[n];
            && OnBoundary(t.log, t.hwm) && 0 <= t.hwm <= Leo(t.log)
            && forall id | id in t.followers ::
                 var f := t.followers[id]; f.log <= t.log && f.hwm <= t.hwm && f.hwm <= Leo(f.log)
  {
    RunOk(states, steps, n, n);
    var t := states[n];
    BoundaryBelow(t.log, t.hwm);
    forall id | id in t.followers ensures FollowerOk(t, id) {
      assert FollowerOk(t, id);
    }
  }

  /** In every state of every run a follower that is in sync, and was not put there short of the
      high watermark, holds all committed batches. */
  lemma InSyncHoldsCommitted(states: seq<Term>, steps: seq<Step>, n: nat, id: int)
    requires Run(states, steps) && n < |states| && id in states[n].isr && id != states[n].self
    requires Admitted(states, steps, n, id)
    ensures id in states[n].followers && Below(states[n].log, states[n].hwm) <= states[n].followers[id].log
  {
    RunOk(states, steps, n, n);
    InSyncCaughtUp(states, steps, n, id);
    HoldsCommitted(states[n], id);
  }

  lemma {:induction false} BelowGrows(bs: seq<Batch>, cs: seq<Batch>, off: int, more: int)
    requires bs <= cs && off <= more
    ensures Below(bs, off) <= Below(cs, more)
  {
    if bs != [] && bs[0].next <= off {
      assert bs[1..] <= cs[1..];
      BelowGrows(bs[1..], cs[1..], off, more);
    }
  }

  /** Committed stays committed: over a run the committed batches and every follower's log only
      grow. */
  lemma CommittedGrows(states: seq<Term>, steps: seq<Step>, m: nat, n: nat)
    requires Run(states, steps) && m <= n < |states|
    ensures states[m].hwm <= states[n].hwm && Below(states[m].log, states[m].hwm) <= Below(states[n].log, states[n].hwm)
    ensures forall id | id in states[m].followers ::
              id in states[n].followers && states[m].followers[id].log <= states[n].followers[id].log
  {
    RunOk(states, steps, m, n);
    BelowGrows(states[m].log, states[n].log, states[m].hwm, states[n].hwm);
  }

  /** acks=all: once the high watermark is seen at or above the log end the append reached, every
      batch of the append lies wholly below it. */
  lemma AckedIsCommitted(states: seq<Term>, steps: seq<Step>, m: nat, n: nat)
    requires Run(states, steps) && m <= n < |states|
    requires states[n].hwm >= Leo(states[m].log)
    ensures states[m].log <= Below(states[n].log, states[n].hwm)
  {
    RunOk(states, steps, m, n);
    RunOk(states, steps, m, m);
    var a, t := states[m], states[n];
    BelowAll(a.log, 0, Leo(a.log), Leo(a.log));
    BelowGrows(a.log, t.log, Leo(a.log), t.hwm);
  }

  /** And every in-sync follower that was admitted caught up holds them all. */
  lemma AckedIsReplicated(states: seq<Term>, steps: seq<Step>, m: nat, n: nat, id: int)
    requires Run(states, steps) && m <= n < |states| && states[n].hwm >= Leo(states[m].log)
    requires id in states[n].isr && id != states[n].self && Admitted(states, steps, n, id)
    ensures id in states[n].followers && states[m].log <= states[n].followers[id].log
  {
    AckedIsCommitted(states, steps, m, n);
    InSyncHoldsCommitted(states, steps, n, id);
  }

  lemma {:induction false} BelowAll(bs: seq<Batch>, from: int, to: int, off: int)
    requires Chain(bs, from, to) && to <= off
    ensures Below(bs, off) == bs
  {
    if bs != [] {
      ChainBounds(bs, from, to);
      BelowAll(bs[1..], bs[0].next, to, off);
      assert [bs[0]] + bs[1..] == bs;
    }
  }

  // ---------------------------------------------------------------- getting there

  /** What a follower's turn with a response does to its high watermark: it reaches what the leader
      reported, as far as its log reaches, unless the response left a gap. */
  lemma ApplyReaches(t: Term, r: Response)
    requires TermOk(t) && Enabled(t, DoApply(r))
    ensures var f, g := t.followers[r.id], Apply(t, r).followers[r.id];
            var next := Leo(g.log);
            && f.log <= g.log && f.hwm <= g.hwm
            && (Taken(Leo(f.log), r.batches).1 ==> (g.hwm >= r.hwm || g.hwm >= next))
            && (g.hwm == f.hwm || (g.hwm <= r.hwm && g.hwm <= next))
  {
    ApplyExtends(t, r);
    RaisedIs(t.followers[r.id].hwm, r.hwm, Leo(Apply(t, r).followers[r.id].log));
  }

  /** Once the last in-sync follower's fetch at the log end is handled, everything is committed. */
  lemma LastFetchCommits(t: Term, q: Request, bs: seq<Batch>)
    requires TermOk(t) && Enabled(t, DoHandle(q, bs)) && q.off == Leo(t.log)
    requires forall id | id in t.isr && id != t.self && id != q.id :: OnRecord(t.progress, id) == Leo(t.log)
    ensures Handle(t, q, bs).hwm == Leo(t.log)
  {
    var u := t.(responses := t.responses + {Response(q.id, bs, t.hwm)}, progress := t.progress[q.id := q.off]);
    AdvanceReaches(u, Leo(t.log));
    HandleKeeps(t, q, bs);
    BoundaryBelow(t.log, Handle(t, q, bs).hwm);
  }

  /** A run can be prolonged by any enabled step. */
  lemma RunOn(states: seq<Term>, steps: seq<Step>, s: Step)
    requires Run(states, steps) && Enabled(states[|steps|], s)
    ensures Run(states + [Do(states[|steps|], s)], steps + [s])
  {
    var more, done := states + [Do(states[|steps|], s)], steps + [s];
    forall i | 0 <= i < |done| ensures Enabled(more[i], done[i]) && more[i + 1] == Do(more[i], done[i]) {
      assert i < |steps| ==> Enabled(states[i], steps[i]);
    }
  }

  /** The leader's log, in-sync set and followers are those of t. */
  predicate SameLog(t: Term, u: Term)
  {
    u.self == t.self && u.log == t.log && u.isr == t.isr && u.followers.Keys == t.followers.Keys
  }

  /** Follower id holds the whole log, and the leader has it on record. */
  predicate UpToDate(t: Term, id: int)
  {
    id == t.self || (id in t.followers && t.followers[id].log == t.log && OnRecord(t.progress, id) == Leo(t.log))
  }

  /** Asking, and being answered with all that is missing. */
  lemma Asked(t: Term, id: int) returns (u: Term, q: Request, bs: seq<Batch>)
    requires TermOk(t) && id in t.followers
    ensures q == Request(id, Leo(t.followers[id].log)) && t.followers[id].log + bs == t.log
    ensures Enabled(t, DoSend(id)) && Enabled(Send(t, id), DoHandle(q, bs)) && u == Handle(Send(t, id), q, bs)
    ensures TermOk(u) && SameLog(t, u) && u.followers == t.followers && Response(id, bs, t.hwm) in u.responses
    ensures forall j | j != id :: OnRecord(u.progress, j) == OnRecord(t.progress, j)
  {
    var n, off := |t.followers[id].log|, Leo(t.followers[id].log);
    FollowerEnds(t, id);
    q, bs := Request(id, off), t.log[n..];
    assert t.log[n..|t.log|] == bs && RunAt(t.log, n, |t.log|, bs);
    SendKeeps(t, id);
    assert Serves(t.log, off, bs);
    HandleKeeps(Send(t, id), q, bs);
    assert t.log[..n] + t.log[n..] == t.log;
    u := Handle(Send(t, id), q, bs);
  }

  /** And applying that. */
  lemma Taught(t: Term, id: int, r: Response) returns (u: Term)
    requires TermOk(t) && id in t.followers && r in t.responses && r.id == id
    requires t.followers[id].log + r.batches == t.log
    ensures Enabled(t, DoApply(r)) && u == Apply(t, r) && TermOk(u) && SameLog(t, u) && u.progress == t.progress
    ensures u.followers[id].log == t.log
    ensures forall j | j in t.followers && j != id :: u.followers[j].log == t.followers[j].log
  {
    ApplyKeeps(t, r);
    TakesRest(t.followers[id].log, r.batches);
    u := Apply(t, r);
  }

  lemma TakesRest(had: seq<Batch>, rest: seq<Batch>)
    requires Chain(had + rest, 0, Leo(had + rest))
    ensures Taken(Leo(had), rest) == (rest, true)
  {
    var log, n := had + rest, |had|;
    PrefixLeo(log, n);
    assert log[..n] == had && log[n..|log|] == rest;
    TakenIs(log, n, n, |log|);
  }

  /** The steps of one exchange. */
  lemma Fetched(t: Term, id: int) returns (u: Term, steps: seq<Step>)
    requires TermOk(t) && id in t.followers
    ensures |steps| == 3 && Enabled(t, steps[0]) && Enabled(Do(t, steps[0]), steps[1])
    ensures var a := Do(t, steps[0]); var b := Do(a, steps[1]); Enabled(b, steps[2]) && u == Do(b, steps[2])
    ensures TermOk(u) && SameLog(t, u) && u.followers[id].log == t.log
    ensures forall j | j in t.followers && j != id :: u.followers[j].log == t.followers[j].log
    ensures forall j | j != id :: OnRecord(u.progress, j) == OnRecord(t.progress, j)
  {
    var b, q, bs := Asked(t, id);
    var r := Response(id, bs, t.hwm);
    u := Taught(b, id, r);
    steps := [DoSend(id), DoHandle(q, bs), DoApply(r)];
  }

  /** And asking once more tells the leader. */
  lemma Told(t: Term, id: int) returns (u: Term, steps: seq<Step>)
    requires TermOk(t) && id in t.followers && t.followers[id].log == t.log
    ensures |steps| == 2 && Enabled(t, steps[0]) && Enabled(Do(t, steps[0]), steps[1])
    ensures u == Do(Do(t, steps[0]), steps[1]) && TermOk(u) && SameLog(t, u) && u.followers == t.followers
    ensures UpToDate(u, id) && forall j | j != id :: OnRecord(u.progress, j) == OnRecord(t.progress, j)
  {
    var q := Request(id, Leo(t.log));
    SendKeeps(t, id);
    HandleKeeps(Send(t, id), q, []);
    steps := [DoSend(id), DoHandle(q, [])];
    u := Handle(Send(t, id), q, []);
  }

  /** A continuation of the run that brings follower id up to date and sets no other back. */
  lemma CatchUpOne(states: seq<Term>, steps: seq<Step>, id: int) returns (states': seq<Term>, steps': seq<Step>)
    requires Run(states, steps) && Known(states[|steps|], id)
    ensures Run(states', steps') && states <= states' && steps <= steps'
    ensures var t, u := states[|steps|], states'[|steps'|];
            SameLog(t, u) && UpToDate(u, id) && forall j | UpToDate(t, j) :: UpToDate(u, j)
  {
    var t := states[|steps|];
    RunOk(states, steps, |steps|, |steps|);
    states', steps' := states, steps;
    if id != t.self {
      var u, fetch := Fetched(t, id);
      states', steps' := RunOn3(states', steps', fetch[0], fetch[1], fetch[2]);
      var v, tell := Told(u, id);
      RunOn(states', steps', tell[0]);
      states', steps' := states' + [Do(u, tell[0])], steps' + [tell[0]];
      RunOn(states', steps', tell[1]);
      states', steps' := states' + [v], steps' + [tell[1]];
    }
  }

  lemma RunOn3(states: seq<Term>, steps: seq<Step>, a: Step, b: Step, c: Step)
      returns (states': seq<Term>, steps': seq<Step>)
    requires Run(states, steps) && Enabled(states[|steps|], a) && Enabled(Do(states[|steps|], a), b)
    requires Enabled(Do(Do(states[|steps|], a), b), c)
    ensures Run(states', steps') && states <= states' && steps <= steps'
    ensures states'[|steps'|] == Do(Do(Do(states[|steps|], a), b), c)
  {
    var t := states[|steps|];
    RunOn(states, steps, a);
    states', steps' := states + [Do(t, a)], steps + [a];
    RunOn(states', steps', b);
    states', steps' := states' + [Do(Do(t, a), b)], steps' + [b];
    RunOn(states', steps', c);
    states', steps' := states' + [Do(Do(Do(t, a), b), c)], steps' + [c];
  }

  lemma {:induction false} CatchUpAll(states: seq<Term>, steps: seq<Step>, ids: seq<int>)
      returns (states': seq<Term>, steps': seq<Step>)
    requires Run(states, steps) && forall id | id in ids :: Known(states[|steps|], id)
    ensures Run(states', steps') && states <= states' && steps <= steps'
    ensures var t, u := states[|steps|], states'[|steps'|];
            SameLog(t, u) && (forall id | id in ids :: UpToDate(u, id)) && forall j | UpToDate(t, j) :: UpToDate(u, j)
    decreases |ids|
  {
    states', steps' := states, steps;
    if ids != [] {
      var n := |ids| - 1;
      assert ids == ids[..n] + [ids[n]];
      states', steps' := CatchUpAll(states, steps, ids[..n]);
      assert ids[n] in ids && Known(states[|steps|], ids[n]);
      states', steps' := CatchUpOne(states', steps', ids[n]);
    }
  }

  /** Nothing is stuck: every run of a term can go on to a state with the same log in which the high
      watermark is at the log end, so that all of it is committed. */
  lemma CanCommit(states: seq<Term>, steps: seq<Step>) returns (states': seq<Term>, steps': seq<Step>)
    requires Run(states, steps)
    ensures Run(states', steps') && states <= states' && steps <= steps'
    ensures var t, u := states[|steps|], states'[|steps'|]; SameLog(t, u) && u.hwm == Leo(u.log)
  {
    var t := states[|steps|];
    RunOk(states, steps, |steps|, |steps|);
    forall id | id in t.isr ensures Known(t, id) {
      assert Known(t, id);
    }
    states', steps' := CatchUpAll(states, steps, t.isr);
    var u := states'[|steps'|];
    RunOk(states', steps', |steps'|, |steps'|);
    forall id | id in u.isr && id != u.self ensures Leo(u.log) <= OnRecord(u.progress, id) {
      assert UpToDate(u, id);
    }
    AdvanceReaches(u, Leo(u.log));
    AdvanceKeeps(u);
    BoundaryBelow(u.log, Advance(u).hwm);
    RunOn(states', steps', DoAdvance);
    states', steps' := states' + [Advance(u)], steps' + [DoAdvance];
  }

  // ---------------------------------------------------------------- failover

  /** Whichever in-sync replica checkFailover elects when the leader has died, it is one of the
      leader's followers, and so is every other node it leaves in sync; and each of them that was
      admitted caught up has a log that begins with every committed batch. */
  lemma ElectedHoldsCommitted(states: seq<Term>, steps: seq<Step>, n: nat, pm: Metadata.PartMeta, alive: set<int>,
                              leader: int, isr: seq<int>, id: int)
    requires Run(states, steps) && n < |states| && id in isr
    requires pm.leader == states[n].self >= 0 && pm.isr == states[n].isr
    requires Metadata.FailoverCommits(pm, alive, leader, isr)
    ensures leader in isr && id in states[n].followers
    ensures Admitted(states, steps, n, id) ==> Below(states[n].log, states[n].hwm) <= states[n].followers[id].log
  {
    Metadata.SurvivorsAre(pm.isr, alive);
    RunOk(states, steps, n, n);
    assert id in Metadata.Survivors(pm.isr, alive);
    assert Known(states[n], id);
    if Admitted(states, steps, n, id) {
      InSyncHoldsCommitted(states, steps, n, id);
    }
  }

  // ---------------------------------------------------------------- which in-sync sets are safe

  /** Two states the leader cannot tell apart: they differ in what the followers hold and in the
      messages under way. */
  predicate SameView(t: Term, u: Term)
  {
    && u.self == t.self && u.log == t.log && u.hwm == t.hwm && u.progress == t.progress && u.isr == t.isr
    && u.followers.Keys == t.followers.Keys
  }

  /** An in-sync set the leader can commit and be sure that every member holds what is committed. */
  ghost predicate SafeInView(t: Term, isr: seq<int>)
  {
    forall u {:trigger SameView(t, u)} | SameView(t, u) && TermOk(u) && InSync(u) :: InSync(u.(isr := isr))
  }

  /** The offset the leader has on record for a follower. */
  function Recorded(t: Term, id: int): int
  {
    OnRecord(t.progress, id)
  }

  predicate Admissible(t: Term, id: int)
  {
    id == t.self || id in t.isr || (id in t.followers && t.hwm <= Recorded(t, id))
  }

  lemma AdmissibleCaughtUp(t: Term, u: Term, id: int)
    requires SameView(t, u) && TermOk(u) && InSync(u) && Admissible(t, id)
    ensures CaughtUp(u, id)
  {
    if id in t.isr {
      assert CaughtUp(u, id);
    } else if id != t.self {
      FollowerEnds(u, id);
      assert id in u.progress ==> Reached(u, id, u.progress[id]);
    }
  }

  /** The follower may hold no more than it is on record for. */
  function CutBack(t: Term, id: int, n: nat): Term
    requires id in t.followers && n <= |t.log|
  {
    var f := t.followers[id];
    var log := t.log[..n];
    t.(followers := t.followers[id := Follower(log, if f.hwm < Leo(log) then f.hwm else Leo(log))], requests := {})
  }

  lemma CutBackOk(t: Term, id: int, n: nat)
    requires TermOk(t) && InSync(t) && id in t.followers && id !in t.isr
    requires n <= |t.log| && StartsAt(t.log, n, Recorded(t, id))
    ensures TermOk(CutBack(t, id, n)) && InSync(CutBack(t, id, n)) && SameView(t, CutBack(t, id, n))
    ensures Leo(CutBack(t, id, n).followers[id].log) == Recorded(t, id)
  {
    var u := CutBack(t, id, n);
    PrefixLeo(t.log, n);
    assert u.followers.Keys == t.followers.Keys;
    forall j | j in u.followers ensures FollowerOk(u, j) {
      assert FollowerOk(t, j);
    }
    forall j | j in u.progress ensures Reached(u, j, u.progress[j]) {
      assert Reached(t, j, t.progress[j]);
    }
    forall r | r in u.responses ensures Sent(u, r) {
      assert Sent(t, r);
    }
    forall j | j in u.isr ensures Known(u, j) && CaughtUp(u, j) {
      assert Known(t, j) && CaughtUp(t, j);
    }
  }

  lemma RecordedOnBoundary(t: Term, id: int) returns (n: nat)
    requires TermOk(t)
    ensures n <= |t.log| && StartsAt(t.log, n, Recorded(t, id))
  {
    if id in t.progress {
      assert Reached(t, id, t.progress[id]);
      n :| StartsAt(t.log, n, t.progress[id]);
    } else {
      ChainEnd(t.log, Leo(t.log));
      n := 0;
    }
  }

  /** The exact condition, in what the leader can see. Whatever the followers really hold, a new
      in-sync set is safe if and only if each member not in sync already is on record as having
      reached the high watermark. */
  lemma SafeInViewIff(t: Term, isr: seq<int>)
    requires TermOk(t) && InSync(t)
    ensures SafeInView(t, isr) <==> forall id | id in isr :: Admissible(t, id)
  {
    if forall id | id in isr :: Admissible(t, id) {
      forall u | SameView(t, u) && TermOk(u) && InSync(u) ensures InSync(u.(isr := isr)) {
        forall id | id in isr ensures CaughtUp(u.(isr := isr), id) {
          AdmissibleCaughtUp(t, u, id);
        }
      }
    } else {
      var id :| id in isr && !Admissible(t, id);
      NotAdmissible(t, isr, id);
    }
  }

  lemma NotAdmissible(t: Term, isr: seq<int>, id: int)
    requires TermOk(t) && InSync(t) && id in isr && !Admissible(t, id)
    ensures !SafeInView(t, isr)
  {
    var u := t;
    if id in t.followers {
      var n := RecordedOnBoundary(t, id);
      CutBackOk(t, id, n);
      u := CutBack(t, id, n);
    }
    assert SameView(t, u) && TermOk(u) && InSync(u);
    assert !CaughtUp(u.(isr := isr), id);
  }

  /** The step commits only in-sync sets the leader can see to be safe, and does not commit an
      append before its followers have it. */
  predicate Careful(t: Term, s: Step)
  {
    match s
    case DoAppend(_, hold) => hold || forall id | id in t.isr :: id == t.self
    case DoIsr(isr) => forall id | id in isr :: Admissible(t, id)
    case _ => true
  }

  /** A leader that keeps to that rule never has a replica in sync that lacks a committed batch,
      without knowing what its followers hold. */
  lemma {:induction false} CarefulInSync(states: seq<Term>, steps: seq<Step>, n: nat)
    requires Run(states, steps) && n < |states| && InSync(states[0])
    requires forall i {:trigger Careful(states[i], steps[i])} | 0 <= i < n :: Careful(states[i], steps[i])
    ensures InSync(states[n])
  {
    if n > 0 {
      var t, s := states[n - 1], steps[n - 1];
      CarefulInSync(states, steps, n - 1);
      RunOk(states, steps, n - 1, n - 1);
      assert Enabled(t, s) && Careful(t, s);
      forall id | id in states[n].isr ensures CaughtUp(states[n], id) {
        if s.DoIsr? {
          AdmissibleCaughtUp(t, t, id);
        }
        assert id in t.isr ==> CaughtUp(t, id);
        StepSpares(t, s, id);
      }
    }
  }

  /** What that means for maintainPartitionISR, which asks of a replica only that it was heard from
      lately and not how far it has got: the set it wants is safe if and only if every recent
      replica it would add is on record as having reached the high watermark. */
  lemma DesiredIsSafeIff(t: Term, replicas: seq<int>, lastSeen: map<int, int>, leadSince: Metadata.Since, now: int)
    requires TermOk(t) && InSync(t)
    ensures SafeInView(t, Metadata.Survivors(replicas, Metadata.Recent(replicas, t.self, lastSeen, leadSince, now)))
            <==> forall r | && r in replicas && r != t.self && r !in t.isr
                            && Metadata.Heard(r, lastSeen, leadSince, now) ::
                   r in t.followers && t.hwm <= Recorded(t, r)
  {
    var recent := Metadata.Recent(replicas, t.self, lastSeen, leadSince, now);
    var isr := Metadata.Survivors(replicas, recent);
    Metadata.SurvivorsAre(replicas, recent);
    SafeInViewIff(t, isr);
    if forall id | id in isr :: Admissible(t, id) {
      forall r | r in replicas && r != t.self && r !in t.isr && Metadata.Heard(r, lastSeen, leadSince, now)
        ensures r in t.followers && t.hwm <= Recorded(t, r)
      {
        assert r in isr;
        assert Admissible(t, r);
      }
    } else {
      var id :| id in isr && !Admissible(t, id);
      assert id in recent && id in replicas;
    }
  }

  // ---------------------------------------------------------------- a run in which it fails

  function LateSteps(self: int, id: int, b: Batch): seq<Step>
  {
    [DoIsr([self]), DoSend(id), DoHandle(Request(id, 0), []), DoAppend(b, true), DoAdvance, DoIsr([self, id])]
  }

  function LateStates(self: int, id: int, b: Batch): seq<Term>
  {
    var q, f := Request(id, 0), map[id := Follower([], 0)];
    var r := Response(id, [], 0);
    [Term(self, [], 0, f, map[], [self, id], {}, {}),
     Term(self, [], 0, f, map[], [self], {}, {}),
     Term(self, [], 0, f, map[], [self], {q}, {}),
     Term(self, [], 0, f, map[id := 0], [self], {q}, {r}),
     Term(self, [b], 0, f, map[id := 0], [self], {q}, {r}),
     Term(self, [b], b.next, f, map[id := 0], [self], {q}, {r}),
     Term(self, [b], b.next, f, map[id := 0], [self, id], {q}, {r})]
  }

  lemma AloneLeast(leo: int, self: int, progress: map<int, int>)
    ensures LeastOf(leo, self, progress, [self]) == leo
  {
    assert [self][..0] == [];
  }

  lemma LateRun(self: int, id: int, b: Batch)
    requires self != id && b.base == 0 && 0 < b.next
    ensures Run(LateStates(self, id, b), LateSteps(self, id, b)) && InSync(LateStates(self, id, b)[0])
  {
    var states, steps := LateStates(self, id, b), LateSteps(self, id, b);
    var ids := {id};
    FreshTermOk(self, ids, [self, id]);
    assert (map j | j in ids :: Follower([], 0)) == map[id := Follower([], 0)];
    AloneLeast(0, self, map[id := 0]);
    AloneLeast(b.next, self, map[id := 0]);
    forall i | 0 <= i < |steps| ensures Enabled(states[i], steps[i]) && states[i + 1] == Do(states[i], steps[i]) {
      if i == 2 {
        assert Serves([], 0, []);
      }
    }
  }

  /** For any batch there is such a run. The leader, alone in sync, commits it while the other
      replica, which has nothing, is still heard from; the in-sync set maintainPartitionISR then
      wants has both, the leader could have seen that it is not safe, and it is committed. Now
      checkFailover may elect the replica without the batch. */
  lemma RecencyIsNotEnough(self: int, id: int, b: Batch, epoch: int, lastSeen: map<int, int>, leadSince: Metadata.Since,
                           now: int)
    requires self != id && WellFormed(b) && b.base == 0 && Metadata.Heard(id, lastSeen, leadSince, now)
    ensures var states, steps, both := LateStates(self, id, b), LateSteps(self, id, b), [self, id];
            && Run(states, steps) && states[0] == Term(self, [], 0, map[id := Follower([], 0)], map[], both, {}, {})
            && steps[5] == DoIsr(Metadata.Survivors(both, Metadata.Recent(both, self, lastSeen, leadSince, now)))
            && !SafeInView(states[5], both)
            && var t := states[6];
               && Metadata.FailoverCommits(Metadata.PartMeta(both, self, t.isr, epoch), {id}, id, [id])
               && b in Below(t.log, t.hwm) && b !in t.followers[id].log
  {
    var both := [self, id];
    LateRun(self, id, b);
    LateEnd(self, id, b);
    Metadata.TwoSurvivors(self, id);
    BothRecent(self, id, Metadata.Recent(both, self, lastSeen, leadSince, now));
  }

  /** In particular with the smallest batch and a replica just heard from. */
  lemma SmallestNotEnough(self: int, id: int)
    requires self != id
    ensures var b := Smallest(0);
            var states, steps := LateStates(self, id, b), LateSteps(self, id, b);
            && Run(states, steps) && b in Below(states[6].log, states[6].hwm)
            && id in states[6].isr && b !in states[6].followers[id].log
  {
    RadixValues();
    SmallestIs(0);
    RecencyIsNotEnough(self, id, Smallest(0), 0, map[id := 0], Metadata.Never, 0);
  }

  lemma LateEnd(self: int, id: int, b: Batch)
    requires self != id && b.base == 0 && 0 < b.next
    ensures var t := LateStates(self, id, b)[5];
            b in Below(t.log, t.hwm) && id in t.followers && b !in t.followers[id].log && !SafeInView(t, [self, id])
  {
    var t := LateStates(self, id, b)[5];
    LateRun(self, id, b);
    RunOk(LateStates(self, id, b), LateSteps(self, id, b), 5, 5);
    assert InSync(t) && !Admissible(t, id);
    SafeInViewIff(t, [self, id]);
    assert Below([b], b.next) == [b] + Below([b][1..], b.next);
  }

  lemma BothRecent(a: int, b: int, recent: set<int>)
    requires a in recent && b in recent
    ensures Metadata.Survivors([a, b], recent) == [a, b]
  {
    assert [a, b][..1] == [a] && [a][..0] == [];
    assert Metadata.Survivors([a], recent) == [a];
  }
}
