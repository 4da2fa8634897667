/** Every run of the object-backed log, over any number of process lives: what holds in every
    reachable state, and when the names of objects are safe. */
module ObjectLives {
  import opened Bytes
  import opened Record
  import opened Wal
  import opened ObjectStorage
  import opened ObjectRuns
  import opened ObjectTheorems
  import opened ObjectRecovery
  import opened ObjectCommits

  // ---------------------------------------------------------------- every run

  lemma SealFailsPart(s: Node, k: PartKey)
    requires PartOk(s, k)
    ensures PartOk(SealFails(s), k)
  {
    assert PartOf(SealFails(s), k) == PartOf(s, k);
  }

  /** Every step keeps the node as a whole in order. */
  lemma StepGlobals(s: Node, a: Action, t: Node)
    requires KeysOk(s) && BuffersOk(s) && Next(s, a, t)
    ensures KeysOk(t) && BuffersOk(t) && t.logs.Keys == s.logs.Keys
  {
    match a
    case DoAppend(k, b) => AppendGlobals(s, k, b);
    case DoReplica(k, b) => ReplicaGlobals(s, k, b);
    case DoBegin => BeginGlobals(s);
    case DoFinish(order, now) => FinishGlobals(s, order, now);
    case DoFail => FailGlobals(s);
    case DoRetain(k, now, maxAgeMs, maxBytes) => RetainGlobals(s, k, now, maxAgeMs, maxBytes);
    case DoRaise(k, hwm) => LogOnlyGlobals(s, k, t.logs[k]);
    case DoHold(k) => LogOnlyGlobals(s, k, t.logs[k]);
    case DoSealFails =>
    case DoCrash(lost, put, order) => CrashGlobals(s, lost, put, order);
    case DoCrashLate(lost, order, now, done) => CrashLateGlobals(s, order, now, done, lost);
  }

  lemma CrashLateGlobals(s: Node, order: seq<PartKey>, now: int, done: set<PartKey>, lost: nat)
    requires KeysOk(s) && BuffersOk(s) && lost <= |Active(s.wal)| && s.upload.InFlight?
             && Enumerates(order, s.upload.snap)
    ensures var t := CrashLate(s, order, now, done, lost); KeysOk(t) && BuffersOk(t) && t.logs.Keys == s.logs.Keys
  {
    CrashGlobals(s, lost, true, order);
  }

  lemma LogOnlyGlobals(s: Node, k: PartKey, l: LogState)
    requires KeysOk(s) && BuffersOk(s) && k in s.logs
    ensures var t := s.(logs := s.logs[k := l]); KeysOk(t) && BuffersOk(t)
  {
  }

  predicate IsCrash(a: Action)
  {
    a.DoCrash? || a.DoCrashLate?
  }

  /** Only a put and a crash can harm a partition. */
  lemma StepKeepsPart(s: Node, a: Action, t: Node, k: PartKey)
    requires PartInv(s, k) && Next(s, a, t) && !a.DoFinish? && !IsCrash(a)
    ensures PartOk(t, k)
  {
    match a
    case DoAppend(j, b) => AppendPart(s, j, b, k);
    case DoReplica(j, b) => ReplicaPart(s, j, b, k);
    case DoBegin => BeginPart(s, k);
    case DoFail => FailPart(s, k);
    case DoRetain(j, now, maxAgeMs, maxBytes) => RetainPart(s, j, now, maxAgeMs, maxBytes, k);
    case DoRaise(j, hwm) => LogOnlyPart(s, j, t.logs[j], k);
    case DoHold(j) => LogOnlyPart(s, j, t.logs[j], k);
    case DoSealFails => SealFailsPart(s, k);
  }

  /** A step keeps a partition in good order if and only if it does that partition no harm,
      whatever state the others are in. */
  lemma StepKeepsIff(s: Node, a: Action, t: Node, k: PartKey)
    requires PartInv(s, k) && Next(s, a, t)
    ensures PartOk(t, k) <==> Unharmed(s, a, k)
  {
    if a.DoFinish? {
      FinishStepIff(s, a, t, k);
    } else if IsCrash(a) {
      CrashStepIff(s, a, t, k);
    } else {
      StepKeepsPart(s, a, t, k);
    }
  }

  lemma FinishStepIff(s: Node, a: Action, t: Node, k: PartKey)
    requires PartInv(s, k) && a.DoFinish? && Next(s, a, t)
    ensures PartOk(t, k) <==> Unharmed(s, a, k)
  {
    FinishPart(s, a.order, a.now, k);
  }

  lemma CrashStepIff(s: Node, a: Action, t: Node, k: PartKey)
    requires PartInv(s, k) && IsCrash(a) && Next(s, a, t)
    ensures PartOk(t, k) <==> Unharmed(s, a, k)
  {
    if a.DoCrash? {
      CrashPartIff(s, a.lost, a.put, a.order, k);
    } else {
      LateOkIff(s, a.order, a.now, a.done, a.lost, k);
    }
  }

  /** A run: states from a fresh node on, each following from the one before by an action. */
  ghost predicate Run(states: seq<Node>, acts: seq<Action>, id: string, ks: set<PartKey>)
  {
    && |states| == |acts| + 1 && states[0] == Init(id, ks)
    && forall i {:trigger StepAt(states, acts, i)} | 0 <= i < |acts| :: StepAt(states, acts, i)
  }

  ghost predicate StepAt(states: seq<Node>, acts: seq<Action>, i: nat)
    requires i < |acts| && i + 1 < |states|
  {
    Next(states[i], acts[i], states[i + 1])
  }

  lemma {:induction false} NodeOk(states: seq<Node>, acts: seq<Action>, id: string, ks: set<PartKey>, n: nat)
    requires Run(states, acts, id, ks) && n < |states|
    ensures KeysOk(states[n]) && BuffersOk(states[n]) && states[n].logs.Keys == ks
  {
    if n == 0 {
      InitOk(id, ks);
    } else {
      NodeOk(states, acts, id, ks, n - 1);
      assert StepAt(states, acts, n - 1);
      StepGlobals(states[n - 1], acts[n - 1], states[n]);
    }
  }

  /** No step before state n does partition k any harm. */
  ghost predicate Spared(states: seq<Node>, acts: seq<Action>, n: nat, k: PartKey)
    requires n <= |acts| <= |states|
  {
    forall i {:trigger Unharmed(states[i], acts[i], k)} | 0 <= i < n :: Unharmed(states[i], acts[i], k)
  }

  ghost predicate OkUpTo(states: seq<Node>, n: nat, k: PartKey)
    requires n < |states|
  {
    forall m {:trigger PartOk(states[m], k)} | 0 <= m <= n :: PartOk(states[m], k)
  }

  /** The conservation theorem, partition by partition: over every run, with any number of crashes
      each of which may lose the end of the write-ahead log, and whatever becomes of the other
      partitions, a partition's index entries, its part of the snapshot in flight and of the pending
      buffer account for everything it retains, and the write-ahead log for everything not in the
      index, if and only if no put overwrites what its entries point at and no crash leaves it
      nothing to take its offsets from. */
  lemma {:induction false} PartitionOkIff(states: seq<Node>, acts: seq<Action>, id: string, ks: set<PartKey>, n: nat,
                                          k: PartKey)
    requires Run(states, acts, id, ks) && n < |states| && k in ks
    ensures OkUpTo(states, n, k) <==> Spared(states, acts, n, k)
  {
    if n == 0 {
      InitOk(id, ks);
      assert PartOk(states[0], k);
    } else {
      PartitionOkIff(states, acts, id, ks, n - 1, k);
      StepOfRun(states, acts, id, ks, n, k);
      RunStepIff(states, acts, n, k);
    }
  }

  lemma StepOfRun(states: seq<Node>, acts: seq<Action>, id: string, ks: set<PartKey>, n: nat, k: PartKey)
    requires Run(states, acts, id, ks) && 0 < n < |states|
    ensures PartOk(states[n - 1], k) ==> (PartOk(states[n], k) <==> Unharmed(states[n - 1], acts[n - 1], k))
  {
    if PartOk(states[n - 1], k) {
      NodeOk(states, acts, id, ks, n - 1);
      assert StepAt(states, acts, n - 1);
      StepKeepsIff(states[n - 1], acts[n - 1], states[n], k);
    }
  }

  lemma RunStepIff(states: seq<Node>, acts: seq<Action>, n: nat, k: PartKey)
    requires 0 < n < |states| == |acts| + 1
    requires OkUpTo(states, n - 1, k) <==> Spared(states, acts, n - 1, k)
    requires PartOk(states[n - 1], k) ==> (PartOk(states[n], k) <==> Unharmed(states[n - 1], acts[n - 1], k))
    ensures OkUpTo(states, n, k) <==> Spared(states, acts, n, k)
  {
    if OkUpTo(states, n, k) {
      forall i | 0 <= i < n ensures Unharmed(states[i], acts[i], k) {
        assert PartOk(states[n - 1], k) && PartOk(states[n], k) && OkUpTo(states, n - 1, k);
      }
    }
    if Spared(states, acts, n, k) {
      assert Unharmed(states[n - 1], acts[n - 1], k) && Spared(states, acts, n - 1, k);
      assert PartOk(states[n - 1], k);
    }
  }

  /** So in particular in every state of a run that spares it. */
  lemma PartitionOk(states: seq<Node>, acts: seq<Action>, id: string, ks: set<PartKey>, n: nat, k: PartKey)
    requires Run(states, acts, id, ks) && n < |states| && k in ks && Spared(states, acts, n, k)
    ensures PartInv(states[n], k)
  {
    NodeOk(states, acts, id, ks, n);
    PartitionOkIff(states, acts, id, ks, n, k);
    assert PartOk(states[n], k);
  }

  /** And every partition is in order in every state of a run that spares them all. */
  lemma EveryReachableStateOk(states: seq<Node>, acts: seq<Action>, id: string, ks: set<PartKey>, n: nat)
    requires Run(states, acts, id, ks) && n < |states|
    requires forall k {:trigger Spared(states, acts, n, k)} | k in ks :: Spared(states, acts, n, k)
    ensures Inv(states[n])
  {
    NodeOk(states, acts, id, ks, n);
    forall k | k in states[n].logs ensures PartOk(states[n], k) {
      PartitionOk(states, acts, id, ks, n, k);
    }
    Assemble(states[n]);
  }

  // ---------------------------------------------------------------- names within a life

  lemma FreshFinish(s: Node, order: seq<PartKey>, now: int)
    requires KeysOk(s) && BuffersOk(s) && Fresh(s) && s.upload.InFlight? && Enumerates(order, s.upload.snap)
    ensures Fresh(FinishUpload(s, order, now))
  {
    var t := FinishUpload(s, order, now);
    forall k, i | k in t.refs && 0 <= i < |t.refs[k]| && t.refs[k][i].key.node == t.id
      ensures t.refs[k][i].key.seqNo <= t.uploadSeq
    {
      if i < |s.refs[k]| {
        assert t.refs[k][i] == s.refs[k][i];
      } else {
        RefForHoldsKey(s.upload.snap, order, k, ObjKey(s.id, s.upload.seqNo), now);
      }
    }
  }

  lemma FreshRetain(s: Node, k: PartKey, now: int, maxAgeMs: int, maxBytes: int)
    requires KeysOk(s) && Fresh(s) && k in s.logs
    ensures Fresh(Retain(s, k, now, maxAgeMs, maxBytes))
  {
    var t, d := Retain(s, k, now, maxAgeMs, maxBytes), Dropped(s, k, now, maxAgeMs, maxBytes);
    forall j, i | j in t.refs && 0 <= i < |t.refs[j]| && t.refs[j][i].key.node == t.id
      ensures t.refs[j][i].key.seqNo < t.uploadSeq || (t.upload.Idle? && t.refs[j][i].key.seqNo == t.uploadSeq)
    {
      var r := t.refs[j][i];
      if d > 0 && j == k {
        KeptIn(s.refs[k], s.refs[k][d - 1].next, i);
      }
      assert r in s.refs[j];
      var x :| 0 <= x < |s.refs[j]| && s.refs[j][x] == r;
    }
  }

  lemma FreshStep(s: Node, a: Action, t: Node)
    requires KeysOk(s) && BuffersOk(s) && Fresh(s) && Next(s, a, t) && !IsCrash(a)
    ensures Fresh(t)
  {
    match a
    case DoFinish(order, now) => FreshFinish(s, order, now);
    case DoRetain(k, now, maxAgeMs, maxBytes) => FreshRetain(s, k, now, maxAgeMs, maxBytes);
    case DoAppend(k, b) => assert t.refs == s.refs;
    case DoReplica(k, b) => assert t.refs == s.refs;
    case DoBegin => assert t.refs == s.refs;
    case DoFail => assert t.refs == s.refs;
    case DoRaise(k, hwm) => assert t.refs == s.refs;
    case DoHold(k) => assert t.refs == s.refs;
    case DoSealFails => assert t.refs == s.refs;
  }

  lemma {:induction false} FreshUntilCrash(states: seq<Node>, acts: seq<Action>, id: string, ks: set<PartKey>, m: nat,
                                           n: nat)
    requires Run(states, acts, id, ks) && m <= n < |states| && (m == 0 || Fresh(states[m]))
    requires forall i {:trigger acts[i]} | m <= i < n :: !IsCrash(acts[i])
    ensures Fresh(states[n])
    decreases n
  {
    if m < n {
      FreshUntilCrash(states, acts, id, ks, m, n - 1);
      NodeOk(states, acts, id, ks, n - 1);
      assert StepAt(states, acts, n - 1);
      FreshStep(states[n - 1], acts[n - 1], states[n]);
    }
  }

  lemma FreshIsSafe(s: Node, order: seq<PartKey>)
    requires Fresh(s) && s.upload.InFlight? && s.upload.seqNo == s.uploadSeq && Enumerates(order, s.upload.snap)
    ensures SafeName(s, order)
  {
  }

  /** From a state in which every entry of the node's own is older than its name counter, every
      upload up to the next crash writes a name nobody uses. The first life starts like that; a
      later one gets there once its counter has passed the numbers it used before. */
  lemma NamesSafeUntilCrash(states: seq<Node>, acts: seq<Action>, id: string, ks: set<PartKey>, m: nat, n: nat,
                            order: seq<PartKey>)
    requires Run(states, acts, id, ks) && m <= n < |states| && (m == 0 || Fresh(states[m]))
    requires forall i {:trigger acts[i]} | m <= i < n :: !IsCrash(acts[i])
    requires states[n].upload.InFlight? && Enumerates(order, states[n].upload.snap)
    ensures SafeName(states[n], order)
  {
    FreshUntilCrash(states, acts, id, ks, m, n);
    NodeOk(states, acts, id, ks, n);
    FreshIsSafe(states[n], order);
  }

  // ---------------------------------------------------------------- names across lives

  /** After a crash the name counter starts again. What that does to a partition the run has spared:
      after the first upload of the new life its entries all hold if and only if those into an old
      object of the same name lie within the new one and find their old bytes there. */
  lemma FirstUploadExact(states: seq<Node>, acts: seq<Action>, id: string, ks: set<PartKey>, n: nat,
                         order: seq<PartKey>, now: int, k: PartKey)
    requires Run(states, acts, id, ks) && 0 < n < |states| && IsCrash(acts[n - 1]) && k in ks
             && Spared(states, acts, n, k)
    requires states[n].pending != map[] && Enumerates(order, states[n].pending)
    ensures var t := states[n];
            && PartInv(t, k) && KeysOk(BeginUpload(t))
            && var u := FinishUpload(BeginUpload(t), order, now);
               RefsHold(u.objects, u.refs[k], u.uploaded[k])
               <==> Untouched(t.objects, t.refs[k], ObjKey(t.id, 1), ObjectBytes(t.pending, order))
  {
    PartitionOk(states, acts, id, ks, n, k);
    CrashedState(states, acts, id, ks, n);
    UploadExact(states[n], order, now, k);
  }

  lemma CrashedState(states: seq<Node>, acts: seq<Action>, id: string, ks: set<PartKey>, n: nat)
    requires Run(states, acts, id, ks) && 0 < n < |states| && IsCrash(acts[n - 1])
    ensures states[n].upload == Idle && states[n].uploadSeq == 0
  {
    assert StepAt(states, acts, n - 1);
    AfterCrash(states[n - 1], acts[n - 1], states[n]);
  }

  lemma AfterCrash(s: Node, a: Action, t: Node)
    requires Next(s, a, t) && IsCrash(a)
    ensures t.upload == Idle && t.uploadSeq == 0 && t.id == s.id
  {
  }

  lemma UploadExact(t: Node, order: seq<PartKey>, now: int, k: PartKey)
    requires PartInv(t, k) && t.upload.Idle? && t.pending != map[] && Enumerates(order, t.pending)
    ensures KeysOk(BeginUpload(t))
    ensures var u := FinishUpload(BeginUpload(t), order, now);
            RefsHold(u.objects, u.refs[k], u.uploaded[k])
            <==> Untouched(t.objects, t.refs[k], ObjKey(t.id, t.uploadSeq + 1), ObjectBytes(t.pending, order))
  {
    BeginGlobals(t);
    FinishRefs(BeginUpload(t), order, now, k);
  }

  // ---------------------------------------------------------------- a run in which it fails

  /** One batch uploaded, a second appended, a crash, and the next upload on its way. */
  function TwoLives(k: PartKey, b1: Batch, b2: Batch, now: int): seq<Action>
  {
    [DoAppend(k, b1), DoBegin, DoFinish([k], now), DoAppend(k, b2), DoCrash(0, false, []), DoBegin]
  }

  function OneBatch(k: PartKey, b: Batch): Buffer
  {
    map[k := Pending(b.base, b.next, [b], |b.bytes|)]
  }

  lemma OneBatchObject(k: PartKey, b: Batch, key: ObjKey, now: int)
    ensures Enumerates([k], OneBatch(k, b)) && ObjectBytes(OneBatch(k, b), [k]) == b.bytes
    ensures RefFor(OneBatch(k, b), [k], k, key, now) == Ref(key, b.base, b.next, 0, |b.bytes|, now)
  {
    ConcatOne(b);
    assert [k][..0] == [] && [] + b.bytes == b.bytes;
  }

  lemma RunOn(states: seq<Node>, acts: seq<Action>, id: string, ks: set<PartKey>, a: Action, t: Node)
    requires Run(states, acts, id, ks) && Next(states[|acts|], a, t)
    ensures Run(states + [t], acts + [a], id, ks)
  {
    var more, done := states + [t], acts + [a];
    forall i | 0 <= i < |done| ensures StepAt(more, done, i) {
      if i < |acts| {
        assert StepAt(states, acts, i);
      }
    }
  }

  /** The state before the first upload is finished: one batch in flight, nothing in the index. */
  ghost predicate Uploading(s: Node, id: string, k: PartKey, b: Batch)
  {
    && Inv(s) && s.id == id && s.logs.Keys == {k} && s.pending == map[] && s.logs[k].next == b.next
    && s.upload.InFlight? && s.upload.snap == OneBatch(k, b) && s.upload.seqNo == 1 && s.refs[k] == []
  }

  lemma Upload1(id: string, k: PartKey, b: Batch) returns (s1: Node, s2: Node)
    requires WellFormed(b) && b.base == 0
    ensures Next(Init(id, {k}), DoAppend(k, b), s1) && Next(s1, DoBegin, s2)
    ensures Uploading(s2, id, k, b)
  {
    var s0 := Init(id, {k});
    InitOk(id, {k});
    s1 := Append(s0, k, b);
    AppendKeeps(s0, k, b);
    assert s1.pending == OneBatch(k, b);
    s2 := BeginUpload(s1);
    BeginKeeps(s1);
  }

  /** And after it. */
  ghost predicate Uploaded(s: Node, id: string, k: PartKey, b: Batch, now: int)
  {
    && Inv(s) && s.id == id && s.logs.Keys == {k} && s.upload.Idle? && s.pending == map[]
    && s.logs[k].next == b.next && s.refs[k] == [Ref(ObjKey(id, 1), b.base, b.next, 0, |b.bytes|, now)]
    && ObjKey(id, 1) in s.objects && s.objects[ObjKey(id, 1)] == b.bytes
  }

  lemma Finish1(s: Node, id: string, k: PartKey, b: Batch, now: int) returns (t: Node)
    requires Uploading(s, id, k, b)
    ensures Next(s, DoFinish([k], now), t) && Uploaded(t, id, k, b, now)
  {
    OneBatchObject(k, b, ObjKey(id, 1), now);
    SafeIfEmpty(s, [k]);
    t := FinishUpload(s, [k], now);
    FinishKeepsIff(s, [k], now);
  }

  /** With nothing in the index any name is safe. */
  lemma SafeIfEmpty(s: Node, order: seq<PartKey>)
    requires s.upload.InFlight? && Enumerates(order, s.upload.snap) && forall k | k in s.refs :: s.refs[k] == []
    ensures SafeName(s, order)
  {
    forall k | k in s.refs ensures UntouchedBy(s, order, k) {
    }
  }

  /** The state the second life starts from. */
  ghost predicate Crashed(t: Node, s: Node, k: PartKey, b: Batch)
  {
    && Inv(t) && t.id == s.id && t.logs.Keys == {k} && t.upload.Idle? && t.uploadSeq == 0
    && t.refs == s.refs && t.objects == s.objects && Held(t.pending, k) == [b]
  }

  lemma Append2(s: Node, k: PartKey, b: Batch) returns (t: Node)
    requires Inv(s) && s.logs.Keys == {k} && s.upload.Idle? && s.pending == map[] && s.refs[k] != []
    requires WellFormed(b) && b.base == s.logs[k].next
    ensures Next(s, DoAppend(k, b), t) && Inv(t) && t.id == s.id && t.logs.Keys == {k} && t.upload.Idle?
    ensures t.refs == s.refs && t.objects == s.objects && Held(t.pending, k) == [b]
  {
    t := Append(s, k, b);
    AppendKeeps(s, k, b);
  }

  lemma Crash2(s: Node, k: PartKey, b: Batch) returns (t: Node)
    requires Inv(s) && s.logs.Keys == {k} && s.upload.Idle? && s.refs[k] != [] && Held(s.pending, k) == [b]
    ensures Next(s, DoCrash(0, false, []), t) && Crashed(t, s, k, b)
  {
    t := Crash(s, 0, false, []);
    assert forall j | j in s.logs :: Recoverable(s, j, 0);
    CrashKeepsIff(s, 0, false, []);
    CrashPending(s, k, 0, false, []);
    assert Tail(s, k) == [] + [b] == [b];
  }

  lemma Begin2(s: Node, k: PartKey, b: Batch) returns (t: Node)
    requires Inv(s) && s.logs.Keys == {k} && s.upload.Idle? && s.uploadSeq == 0 && Held(s.pending, k) == [b]
    ensures Next(s, DoBegin, t) && Inv(t) && t.id == s.id && t.refs == s.refs && t.objects == s.objects
    ensures t.upload.InFlight? && t.upload.seqNo == 1
    ensures Enumerates([k], t.upload.snap) && ObjectBytes(t.upload.snap, [k]) == b.bytes
  {
    OnlyBatch(s, k, b);
    t := BeginUpload(s);
    BeginKeeps(s);
  }

  /** The run so far ends in this state. */
  ghost predicate RunTo(states: seq<Node>, acts: seq<Action>, id: string, k: PartKey, t: Node)
  {
    Run(states, acts, id, {k}) && states[|acts|] == t
  }

  lemma RunFirst(id: string, k: PartKey, b: Batch) returns (states: seq<Node>, t: Node)
    requires WellFormed(b) && b.base == 0
    ensures RunTo(states, [DoAppend(k, b), DoBegin], id, k, t) && Uploading(t, id, k, b)
  {
    var s1;
    s1, t := Upload1(id, k, b);
    var s0 := Init(id, {k});
    assert Run([s0], [], id, {k});
    RunOn([s0], [], id, {k}, DoAppend(k, b), s1);
    assert [s0] + [s1] == [s0, s1] && [] + [DoAppend(k, b)] == [DoAppend(k, b)];
    RunOn([s0, s1], [DoAppend(k, b)], id, {k}, DoBegin, t);
    states := [s0, s1] + [t];
    assert [DoAppend(k, b)] + [DoBegin] == [DoAppend(k, b), DoBegin];
  }

  lemma RunFinish(states: seq<Node>, acts: seq<Action>, s: Node, id: string, k: PartKey, b: Batch, now: int)
      returns (more: seq<Node>, t: Node)
    requires RunTo(states, acts, id, k, s) && Uploading(s, id, k, b)
    ensures RunTo(more, acts + [DoFinish([k], now)], id, k, t) && Uploaded(t, id, k, b, now)
  {
    t := Finish1(s, id, k, b, now);
    RunOn(states, acts, id, {k}, DoFinish([k], now), t);
    more := states + [t];
  }

  lemma RunAppend(states: seq<Node>, acts: seq<Action>, s: Node, id: string, k: PartKey, b: Batch, c: Batch, now: int)
      returns (more: seq<Node>, t: Node)
    requires RunTo(states, acts, id, k, s) && Uploaded(s, id, k, b, now) && WellFormed(c) && c.base == b.next
    ensures RunTo(more, acts + [DoAppend(k, c)], id, k, t)
    ensures Inv(t) && t.id == id && t.logs.Keys == {k} && t.upload.Idle? && Held(t.pending, k) == [c]
    ensures t.refs == s.refs && t.objects == s.objects
  {
    t := Append2(s, k, c);
    RunOn(states, acts, id, {k}, DoAppend(k, c), t);
    more := states + [t];
  }

  lemma RunCrash(states: seq<Node>, acts: seq<Action>, s: Node, id: string, k: PartKey, c: Batch)
      returns (more: seq<Node>, t: Node)
    requires RunTo(states, acts, id, k, s) && Inv(s) && s.id == id && s.logs.Keys == {k} && s.upload.Idle?
    requires s.refs[k] != [] && Held(s.pending, k) == [c]
    ensures RunTo(more, acts + [DoCrash(0, false, [])], id, k, t) && Crashed(t, s, k, c)
  {
    t := Crash2(s, k, c);
    RunOn(states, acts, id, {k}, DoCrash(0, false, []), t);
    more := states + [t];
  }

  lemma RunBegin(states: seq<Node>, acts: seq<Action>, s: Node, id: string, k: PartKey, was: Node, c: Batch)
      returns (more: seq<Node>, t: Node)
    requires RunTo(states, acts, id, k, s) && Crashed(s, was, k, c)
    ensures RunTo(more, acts + [DoBegin], id, k, t)
    ensures Inv(t) && t.id == s.id && t.refs == s.refs && t.objects == s.objects
    ensures t.upload.InFlight? && t.upload.seqNo == 1
    ensures Enumerates([k], t.upload.snap) && ObjectBytes(t.upload.snap, [k]) == c.bytes
  {
    t := Begin2(s, k, c);
    RunOn(states, acts, id, {k}, DoBegin, t);
    more := states + [t];
  }

  lemma OnlyBatch(s: Node, k: PartKey, b: Batch)
    requires Inv(s) && s.logs.Keys == {k} && Held(s.pending, k) == [b]
    ensures s.pending != map[] && Enumerates([k], s.pending) && ObjectBytes(s.pending, [k]) == b.bytes
  {
    assert k in s.pending;
    forall j | j in s.pending ensures j in [k] {
      assert j in s.logs.Keys;
    }
    ConcatOne(b);
    assert [k][..0] == [] && [] + b.bytes == b.bytes;
  }

  /** Different offsets are in different bytes: no batch starts with another one's. */
  lemma BatchesDiffer(b1: Batch, b2: Batch)
    requires WellFormed(b1) && WellFormed(b2) && b1.base != b2.base
    ensures |b1.bytes| <= |b2.bytes| ==> b2.bytes[0..|b1.bytes|] != b1.bytes
  {
    if |b1.bytes| <= |b2.bytes| && b2.bytes[0..|b1.bytes|] == b1.bytes {
      HeaderOf(b1, b2.bytes);
      HeaderOf(b2, b2.bytes);
    }
  }

  lemma RunTwoLives(id: string, k: PartKey, b1: Batch, b2: Batch, now: int) returns (states: seq<Node>, t: Node)
    requires WellFormed(b1) && b1.base == 0 && WellFormed(b2) && b2.base == b1.next
    ensures RunTo(states, TwoLives(k, b1, b2, now), id, k, t)
    ensures Inv(t) && t.id == id && k in t.refs && t.upload.InFlight? && t.upload.seqNo == 1
    ensures Enumerates([k], t.upload.snap) && ObjectBytes(t.upload.snap, [k]) == b2.bytes
    ensures t.refs[k] == [Ref(ObjKey(id, 1), b1.base, b1.next, 0, |b1.bytes|, now)]
    ensures ObjKey(id, 1) in t.objects && t.objects[ObjKey(id, 1)] == b1.bytes
  {
    var s;
    states, s := RunLife1(id, k, b1, now);
    states, t := RunLife2(states, LifeOne(k, b1, now), s, id, k, b1, b2, now);
    assert LifeOne(k, b1, now) + [DoAppend(k, b2)] + [DoCrash(0, false, [])] + [DoBegin] == TwoLives(k, b1, b2, now);
  }

  function LifeOne(k: PartKey, b: Batch, now: int): seq<Action>
  {
    [DoAppend(k, b), DoBegin] + [DoFinish([k], now)]
  }

  lemma RunLife1(id: string, k: PartKey, b: Batch, now: int) returns (states: seq<Node>, t: Node)
    requires WellFormed(b) && b.base == 0
    ensures RunTo(states, LifeOne(k, b, now), id, k, t) && Uploaded(t, id, k, b, now)
  {
    states, t := RunFirst(id, k, b);
    states, t := RunFinish(states, [DoAppend(k, b), DoBegin], t, id, k, b, now);
  }

  lemma RunLife2(states: seq<Node>, acts: seq<Action>, s: Node, id: string, k: PartKey, b: Batch, c: Batch, now: int)
      returns (more: seq<Node>, t: Node)
    requires RunTo(states, acts, id, k, s) && Uploaded(s, id, k, b, now) && WellFormed(c) && c.base == b.next
    ensures RunTo(more, acts + [DoAppend(k, c)] + [DoCrash(0, false, [])] + [DoBegin], id, k, t)
    ensures Inv(t) && t.id == id && k in t.refs && t.refs == s.refs && t.objects == s.objects
    ensures t.upload.InFlight? && t.upload.seqNo == 1
    ensures Enumerates([k], t.upload.snap) && ObjectBytes(t.upload.snap, [k]) == c.bytes
  {
    var u, v;
    more, u := RunAppend(states, acts, s, id, k, b, c, now);
    more, v := RunCrash(more, acts + [DoAppend(k, c)], u, id, k, c);
    more, t := RunBegin(more, acts + [DoAppend(k, c)] + [DoCrash(0, false, [])], v, id, k, u, c);
  }

  /** For any two batches there is such a run, and the upload in flight at its end will overwrite
      the object that holds the first one: finishing it breaks the invariant. */
  lemma NamesCollide(id: string, k: PartKey, b1: Batch, b2: Batch, now: int) returns (states: seq<Node>, t: Node)
    requires WellFormed(b1) && b1.base == 0 && WellFormed(b2) && b2.base == b1.next
    ensures RunTo(states, TwoLives(k, b1, b2, now), id, k, t)
    ensures t.upload.InFlight? && Enumerates([k], t.upload.snap) && KeysOk(t)
    ensures !PartOk(FinishUpload(t, [k], now), k)
  {
    states, t := RunTwoLives(id, k, b1, b2, now);
    Overwrites(t, k, b1, b2);
    assert PartOk(t, k);
    FinishPart(t, [k], now, k);
  }

  /** In particular with the two smallest batches. */
  lemma SmallestCollide(id: string, k: PartKey, now: int) returns (states: seq<Node>, t: Node)
    ensures RunTo(states, TwoLives(k, Smallest(0), Smallest(1), now), id, k, t)
    ensures t.upload.InFlight? && Enumerates([k], t.upload.snap) && KeysOk(t)
    ensures !PartOk(FinishUpload(t, [k], now), k)
  {
    RadixValues();
    SmallestIs(0);
    SmallestIs(1);
    states, t := NamesCollide(id, k, Smallest(0), Smallest(1), now);
  }

  lemma Overwrites(s: Node, k: PartKey, b1: Batch, b2: Batch)
    requires s.upload.InFlight? && s.upload.seqNo == 1 && Enumerates([k], s.upload.snap)
    requires ObjectBytes(s.upload.snap, [k]) == b2.bytes
    requires k in s.refs && |s.refs[k]| > 0 && s.refs[k][0].key == ObjKey(s.id, 1)
    requires s.refs[k][0].position == 0 && s.refs[k][0].length == |b1.bytes|
    requires ObjKey(s.id, 1) in s.objects && s.objects[ObjKey(s.id, 1)] == b1.bytes
    requires WellFormed(b1) && WellFormed(b2) && b1.base != b2.base
    ensures !UntouchedBy(s, [k], k)
  {
    BatchesDiffer(b1, b2);
    var r := s.refs[k][0];
    assert RefSlice(s.objects, r) == b1.bytes;
    assert !Untouched(s.objects, s.refs[k], ObjKey(s.id, 1), b2.bytes);
  }

  // ---------------------------------------------------------------- a run that loses its offsets

  lemma Retain1(s: Node, id: string, k: PartKey, b: Batch, now: int) returns (t: Node)
    requires Uploaded(s, id, k, b, now) && WellFormed(b)
    ensures Next(s, DoRetain(k, now, 0, 1), t) && Inv(t) && t.refs[k] == [] && t.upload.Idle? && t.pending == map[]
    ensures t.logs.Keys == {k} && t.logs[k].next == b.next
  {
    assert PartOk(s, k);
    t := Retain(s, k, now, 0, 1);
    RetainKeeps(s, k, now, 0, 1);
    RetainDropsPrefix(s, k, now, 0, 1);
    HeaderOf(b, b.bytes);
    var r := s.refs[k][0];
    assert s.refs[k][1..] == [] && RefBytes([]) == 0 && RefBytes(s.refs[k]) == r.length;
    assert Drops(r, RefBytes(s.refs[k]) + PendingBytesOf(s, k), now, 0, 1);
    assert s.refs[k][Dropped(s, k, now, 0, 1)..] == [];
  }

  lemma Emptied(t: Node, k: PartKey)
    requires Inv(t) && k in t.logs && t.refs[k] == [] && t.upload.Idle? && t.pending == map[] && t.logs[k].next > 0
    ensures !Recoverable(t, k, 0) && Crash(t, 0, false, []).logs[k].next == 0 && !PartOk(Crash(t, 0, false, []), k)
  {
    assert PartOk(t, k);
    assert Tail(t, k) == [] && Lost(t.wal, 0) == [] && Without(t.history[k], 0) == t.history[k] != [];
    CrashPending(t, k, 0, false, []);
    CrashOffsets(t, k, 0, false, []);
    CrashPartIff(t, 0, false, [], k);
  }

  /** For any batch there is a run that ends in a partition emptied by retention, and a crash then
      brings it back at offset 0, though its log had got further. */
  lemma OffsetsLost(id: string, k: PartKey, b: Batch, now: int) returns (states: seq<Node>, t: Node)
    requires WellFormed(b) && b.base == 0
    ensures RunTo(states, LifeOne(k, b, now) + [DoRetain(k, now, 0, 1)], id, k, t)
    ensures Inv(t) && t.logs.Keys == {k} && t.logs[k].next == b.next > 0 && !Recoverable(t, k, 0)
    ensures Crash(t, 0, false, []).logs[k].next == 0 && !PartOk(Crash(t, 0, false, []), k)
  {
    var s;
    states, s := RunLife1(id, k, b, now);
    t := Retain1(s, id, k, b, now);
    RunOn(states, LifeOne(k, b, now), id, {k}, DoRetain(k, now, 0, 1), t);
    states := states + [t];
    Emptied(t, k);
  }
}
