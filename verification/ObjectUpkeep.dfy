/** What runs of the object-backed log do to the high watermark of a partition that holds it, and to
    the objects nothing points at. */
module ObjectUpkeep {
  import opened Bytes
  import opened Record
  import opened Chunks
  import opened Wal
  import opened ObjectStorage
  import opened ObjectRuns
  import opened ObjectTheorems
  import opened ObjectLives

  // ---------------------------------------------------------------- a held high watermark

  /** While a partition holds its high watermark, a step without a crash moves it only if it offers
      the partition a higher one, and no further than that. */
  lemma HeldStep(s: Node, a: Action, t: Node, k: PartKey)
    requires Next(s, a, t) && !IsCrash(a) && k in s.logs && s.logs[k].hold
    ensures k in t.logs && t.logs[k].hold && s.logs[k].hwm <= t.logs[k].hwm
    ensures t.logs[k].hwm != s.logs[k].hwm ==> a.DoRaise? && a.k == k && t.logs[k].hwm <= a.hwm
  {
    if a.DoRaise? {
      RaisedIs(s.logs[a.k].hwm, a.hwm, s.logs[a.k].next);
    }
  }

  /** Over a run without a crash it therefore stays between where it was and the highest value
      offered, and where it was if none was offered; appends never move it. */
  lemma {:induction false} HeldOverRun(states: seq<Node>, acts: seq<Action>, id: string, ks: set<PartKey>,
                                       m: nat, n: nat, k: PartKey, top: int)
    requires Run(states, acts, id, ks) && m <= n < |states| && k in states[m].logs && states[m].logs[k].hold
    requires forall i {:trigger acts[i]} | m <= i < n ::
               !IsCrash(acts[i]) && (acts[i].DoRaise? && acts[i].k == k ==> acts[i].hwm <= top)
    ensures k in states[n].logs && states[n].logs[k].hold && states[m].logs[k].hwm <= states[n].logs[k].hwm
    ensures states[n].logs[k].hwm == states[m].logs[k].hwm || states[n].logs[k].hwm <= top
    decreases n
  {
    if m < n {
      HeldOverRun(states, acts, id, ks, m, n - 1, k, top);
      assert StepAt(states, acts, n - 1);
      HeldStep(states[n - 1], acts[n - 1], states[n], k);
    }
  }

  /** Without hold an append commits itself. */
  lemma AppendCommits(s: Node, k: PartKey, b: Batch)
    requires k in s.logs && k in s.history && s.wal != []
    ensures var l, l' := s.logs[k], Append(s, k, b).logs[k];
            && l'.next == b.next && l'.hold == l.hold && l'.earliest == l.earliest
            && (!l.hold ==> l'.hwm == l'.next) && (l.hold ==> l'.hwm == l.hwm)
  {
  }

  // ---------------------------------------------------------------- objects nobody points at

  /** Some partition points at every object there is; and an upload in flight has something in it. */
  ghost predicate Tidy(s: Node)
  {
    && (forall key {:trigger key in s.objects} | key in s.objects :: Referenced(s.refs, key))
    && (s.upload.InFlight? ==> s.upload.snap != map[])
  }

  /** The step does not leave an object behind: a crash after a put comes late enough for some
      partition to point at the object. */
  ghost predicate Clean(s: Node, a: Action)
  {
    KeysOk(s) && s.wal != [] && Enabled(s, a) ==>
      match a
      case DoCrash(_, put, _) => put ==> Referenced(s.refs, ObjKey(s.id, s.upload.seqNo))
      case DoCrashLate(_, _, _, done) =>
        Referenced(s.refs, ObjKey(s.id, s.upload.seqNo)) || exists k :: k in done && k in s.upload.snap
      case _ => true
  }

  lemma KeyOfIn(rs: seq<Ref>, r: Ref)
    requires r in rs
    ensures KeyIn(rs, r.key)
  {
    var i :| 0 <= i < |rs| && rs[i] == r;
  }

  lemma RetainTidy(s: Node, k: PartKey, now: int, maxAgeMs: int, maxBytes: int)
    requires KeysOk(s) && Tidy(s) && k in s.logs
    ensures Tidy(Retain(s, k, now, maxAgeMs, maxBytes))
  {
    var t, d := Retain(s, k, now, maxAgeMs, maxBytes), Dropped(s, k, now, maxAgeMs, maxBytes);
    if d > 0 {
      var cutoff := s.refs[k][d - 1].next;
      forall key | key in t.objects ensures Referenced(t.refs, key) {
        StillPointed(s.refs, k, cutoff, key);
      }
    }
  }

  /** An object some partition points at and no entry dropped from k does is still pointed at. */
  lemma StillPointed(refs: map<PartKey, seq<Ref>>, k: PartKey, cutoff: int, key: ObjKey)
    requires k in refs && Referenced(refs, key)
    ensures Referenced(refs[k := Kept(refs[k], cutoff)], key) || KeyIn(Gone(refs[k], cutoff), key)
  {
    var left := refs[k := Kept(refs[k], cutoff)];
    var j :| j in refs && KeyIn(refs[j], key);
    var i :| 0 <= i < |refs[j]| && refs[j][i].key == key;
    if j == k {
      var r := refs[k][i];
      KeptIs(refs[k], cutoff);
      if r in Kept(refs[k], cutoff) {
        KeyOfIn(Kept(refs[k], cutoff), r);
        assert k in left && KeyIn(left[k], key);
      } else {
        KeyOfIn(Gone(refs[k], cutoff), r);
      }
    } else {
      assert j in left && KeyIn(left[j], key);
    }
  }

  /** More entries reference no less. */
  lemma MoreReferenced(refs: map<PartKey, seq<Ref>>, more: map<PartKey, seq<Ref>>, key: ObjKey)
    requires refs.Keys <= more.Keys && (forall k | k in refs :: refs[k] <= more[k]) && Referenced(refs, key)
    ensures Referenced(more, key)
  {
    var k :| k in refs && KeyIn(refs[k], key);
    var i :| 0 <= i < |refs[k]| && refs[k][i].key == key;
    assert more[k][i] == refs[k][i] && KeyIn(more[k], key);
  }

  lemma CommittedKey(rs: seq<Ref>, snap: Buffer, order: seq<PartKey>, k: PartKey, key: ObjKey, now: int)
    requires Enumerates(order, snap) && k in snap
    ensures KeyIn(rs + [RefFor(snap, order, k, key, now)], key)
  {
    RefForHoldsKey(snap, order, k, key, now);
    assert (rs + [RefFor(snap, order, k, key, now)])[|rs|].key == key;
  }

  lemma FinishTidy(s: Node, order: seq<PartKey>, now: int)
    requires KeysOk(s) && Tidy(s) && s.upload.InFlight? && Enumerates(order, s.upload.snap)
    ensures Tidy(FinishUpload(s, order, now))
  {
    var t, mine := FinishUpload(s, order, now), ObjKey(s.id, s.upload.seqNo);
    forall key | key in t.objects ensures Referenced(t.refs, key) {
      if key == mine {
        var k :| k in s.upload.snap;
        CommittedKey(s.refs[k], s.upload.snap, order, k, mine, now);
        assert KeyIn(t.refs[k], mine);
      } else {
        MoreReferenced(s.refs, t.refs, key);
      }
    }
  }

  lemma CrashTidyIff(s: Node, lost: nat, put: bool, order: seq<PartKey>)
    requires KeysOk(s) && s.wal != [] && Tidy(s) && Enabled(s, DoCrash(lost, put, order))
    ensures Tidy(Crash(s, lost, put, order)) <==> Clean(s, DoCrash(lost, put, order))
  {
    var t := Crash(s, lost, put, order);
    assert t.refs == s.refs && t.objects == Put(s, put, order);
    if put {
      assert ObjKey(s.id, s.upload.seqNo) in t.objects;
    }
  }

  /** One partition's entries once those of the partitions in done are committed. */
  function EntriesOf(rs: seq<Ref>, snap: Buffer, order: seq<PartKey>, done: set<PartKey>, key: ObjKey, now: int,
                     k: PartKey): seq<Ref>
    requires Enumerates(order, snap)
  {
    if k in done && k in snap then rs + [RefFor(snap, order, k, key, now)] else rs
  }

  /** They reference no less, and the object exactly if some entry was committed or had its name. */
  lemma CommittedReferences(refs: map<PartKey, seq<Ref>>, more: map<PartKey, seq<Ref>>, snap: Buffer,
                            order: seq<PartKey>, done: set<PartKey>, mine: ObjKey, now: int)
    requires Enumerates(order, snap) && snap.Keys <= refs.Keys && more.Keys == refs.Keys
    requires forall k {:trigger more[k]} | k in refs :: more[k] == EntriesOf(refs[k], snap, order, done, mine, now, k)
    ensures forall key | Referenced(refs, key) :: Referenced(more, key)
    ensures Referenced(more, mine) <==> Referenced(refs, mine) || exists k :: k in done && k in snap
  {
    forall key | Referenced(refs, key) ensures Referenced(more, key) {
      MoreReferenced(refs, more, key);
    }
    if k :| k in done && k in snap {
      CommittedKey(refs[k], snap, order, k, mine, now);
      assert KeyIn(more[k], mine);
    } else if Referenced(more, mine) {
      var k :| k in more && KeyIn(more[k], mine);
      assert more[k] == refs[k];
    }
  }

  /** After a put only the object put can lack an entry. */
  lemma PutPointedIff(objects: map<ObjKey, seq<byte>>, refs: map<PartKey, seq<Ref>>, more: map<PartKey, seq<Ref>>,
                      mine: ObjKey, data: seq<byte>)
    requires forall key | key in objects :: Referenced(refs, key)
    requires forall key | Referenced(refs, key) :: Referenced(more, key)
    ensures (forall key | key in objects[mine := data] :: Referenced(more, key)) <==> Referenced(more, mine)
  {
    var now := objects[mine := data];
    assert mine in now;
    if Referenced(more, mine) {
      forall key | key in now ensures Referenced(more, key) {
        assert key == mine || key in objects;
      }
    }
  }

  lemma LateFields(s: Node, order: seq<PartKey>, now: int, done: set<PartKey>, lost: nat)
    requires KeysOk(s) && s.wal != [] && Enabled(s, DoCrashLate(lost, order, now, done))
    ensures var t := CrashLate(s, order, now, done, lost);
            && t.upload.Idle? && t.refs.Keys == s.refs.Keys
            && t.objects == s.objects[ObjKey(s.id, s.upload.seqNo) := ObjectBytes(s.upload.snap, order)]
  {
  }

  lemma LateEntries(s: Node, order: seq<PartKey>, now: int, done: set<PartKey>, lost: nat, k: PartKey)
    requires KeysOk(s) && s.wal != [] && Enabled(s, DoCrashLate(lost, order, now, done)) && k in s.refs
    ensures var t := CrashLate(s, order, now, done, lost);
            && k in t.refs
            && t.refs[k] == EntriesOf(s.refs[k], s.upload.snap, order, done, ObjKey(s.id, s.upload.seqNo), now, k)
  {
  }

  lemma CrashLateTidyIff(s: Node, order: seq<PartKey>, now: int, done: set<PartKey>, lost: nat)
    requires KeysOk(s) && s.wal != [] && Tidy(s) && Enabled(s, DoCrashLate(lost, order, now, done))
    ensures Tidy(CrashLate(s, order, now, done, lost)) <==> Clean(s, DoCrashLate(lost, order, now, done))
  {
    var t, mine := CrashLate(s, order, now, done, lost), ObjKey(s.id, s.upload.seqNo);
    LateFields(s, order, now, done, lost);
    forall k | k in s.refs ensures t.refs[k] == EntriesOf(s.refs[k], s.upload.snap, order, done, mine, now, k) {
      LateEntries(s, order, now, done, lost, k);
    }
    CommittedReferences(s.refs, t.refs, s.upload.snap, order, done, mine, now);
    PutPointedIff(s.objects, s.refs, t.refs, mine, ObjectBytes(s.upload.snap, order));
  }

  /** A step that is not a crash leaves every object pointed at. */
  lemma LiveTidy(s: Node, a: Action, t: Node)
    requires Tidy(s) && Next(s, a, t) && !IsCrash(a)
    ensures Tidy(t)
  {
    if a.DoFinish? {
      FinishTidy(s, a.order, a.now);
    } else if a.DoRetain? {
      RetainTidy(s, a.k, a.now, a.maxAgeMs, a.maxBytes);
    } else {
      assert t.refs == s.refs && t.objects == s.objects;
    }
  }

  /** A step leaves every object pointed at if and only if it is clean. */
  lemma StepTidyIff(s: Node, a: Action, t: Node)
    requires Tidy(s) && Next(s, a, t)
    ensures Tidy(t) <==> Clean(s, a)
  {
    if !IsCrash(a) {
      LiveTidy(s, a, t);
    } else if a.DoCrash? {
      CrashTidyIff(s, a.lost, a.put, a.order);
    } else {
      CrashLateTidyIff(s, a.order, a.now, a.done, a.lost);
    }
  }

  lemma StepOfRunTidy(states: seq<Node>, acts: seq<Action>, id: string, ks: set<PartKey>, n: nat)
    requires Run(states, acts, id, ks) && 0 < n < |states|
    ensures Tidy(states[n - 1]) ==> (Tidy(states[n]) <==> Clean(states[n - 1], acts[n - 1]))
  {
    if Tidy(states[n - 1]) {
      NodeOk(states, acts, id, ks, n - 1);
      assert StepAt(states, acts, n - 1);
      StepTidyIff(states[n - 1], acts[n - 1], states[n]);
    }
  }

  /** No object is left behind: in every state of a run some partition points at every object there
      is, if and only if no crash came between the put of an object and the first entry for it. */
  lemma {:induction false} NoOrphansIff(states: seq<Node>, acts: seq<Action>, id: string, ks: set<PartKey>, n: nat)
    requires Run(states, acts, id, ks) && n < |states|
    ensures (forall m {:trigger Tidy(states[m])} | 0 <= m <= n :: Tidy(states[m]))
            <==> (forall i {:trigger Clean(states[i], acts[i])} | 0 <= i < n :: Clean(states[i], acts[i]))
  {
    if n == 0 {
      assert Tidy(states[0]);
    } else {
      NoOrphansIff(states, acts, id, ks, n - 1);
      StepOfRunTidy(states, acts, id, ks, n);
      if Tidy(states[n - 1]) {
        assert Tidy(states[n]) <==> Clean(states[n - 1], acts[n - 1]);
      }
    }
  }
}
