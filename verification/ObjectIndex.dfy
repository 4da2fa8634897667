/** The object index: the durable stores that hold index entries (in memory, and in the
    replicated metadata), and the sorted cache in front of them. */
module ObjectIndex {
  import opened Wal
  import opened ObjectStorage
  import opened ObjectRuns
  import opened ObjectTheorems
  import opened ObjectReads

  // ---------------------------------------------------------------- searching

  /** Every entry covers some offsets, and all of them lie below those of the entries behind it.
      There may be gaps. */
  predicate Ordered(rs: seq<Ref>)
  {
    && (forall i | 0 <= i < |rs| :: rs[i].base < rs[i].next)
    && (forall i, j | 0 <= i < j < |rs| :: rs[i].next <= rs[j].base)
  }

  lemma {:induction false} TilesOrdered(rs: seq<Ref>, from: int, to: int)
    requires Tiles(rs, from, to)
    ensures Ordered(rs)
  {
    if rs != [] {
      TilesBounds(rs[1..], rs[0].next, to);
      TilesOrdered(rs[1..], rs[0].next, to);
      assert rs == [rs[0]] + rs[1..];
      PrependOrdered(rs[0], rs[1..]);
    }
  }

  lemma PrependOrdered(r: Ref, q: seq<Ref>)
    requires Ordered(q) && r.base < r.next && forall i | 0 <= i < |q| :: r.next <= q[i].base
    ensures Ordered([r] + q)
  {
  }

  /** refFor: sort.Search for the first entry beyond the offset, then one range check. Over
      ordered entries it finds an entry exactly when a linear walk does, and the same one. */
  method RefForOffset(rs: seq<Ref>, off: int) returns (i: int)
    requires Ordered(rs)
    ensures i == RefIndex(rs, off)
  {
    var lo, hi := 0, |rs|;
    while lo < hi
      invariant 0 <= lo <= hi <= |rs|
      invariant lo > 0 ==> rs[lo - 1].base <= off
      invariant hi < |rs| ==> off < rs[hi].base
    {
      var mid := (lo + hi) / 2;
      if rs[mid].base > off {
        hi := mid;
      } else {
        lo := mid + 1;
      }
    }
    if lo == 0 {
      NoRefFor(rs, off, 0);
      return -1;
    }
    if off >= rs[lo - 1].next {
      NoRefFor(rs, off, lo);
      return -1;
    }
    FoundRef(rs, off, lo - 1);
    return lo - 1;
  }

  lemma {:induction false} FoundRef(rs: seq<Ref>, off: int, i: nat)
    requires Ordered(rs) && i < |rs| && rs[i].base <= off < rs[i].next
    ensures RefIndex(rs, off) == i
  {
    if i > 0 {
      FoundRef(rs[1..], off, i - 1);
    }
  }

  /** Between entry i - 1 and entry i there is no entry. */
  lemma {:induction false} NoRefFor(rs: seq<Ref>, off: int, i: nat)
    requires Ordered(rs) && i <= |rs|
    requires (i > 0 ==> rs[i - 1].next <= off) && (i < |rs| ==> off < rs[i].base)
    ensures RefIndex(rs, off) == -1
  {
    if rs != [] {
      NoRefFor(rs[1..], off, if i == 0 then 0 else i - 1);
    }
  }

  /** The linear walk finds an entry exactly when one covers the offset. */
  lemma {:induction false} RefIndexExact(rs: seq<Ref>, off: int)
    ensures var i := RefIndex(rs, off);
            if i >= 0 then i < |rs| && rs[i].base <= off < rs[i].next
            else forall e | e in rs :: !(e.base <= off < e.next)
  {
    if rs != [] {
      RefIndexExact(rs[1..], off);
    }
  }

  // ---------------------------------------------------------------- the two stores

  type Store = map<PartKey, seq<Ref>>

  function Get(m: Store, k: PartKey): seq<Ref>
  {
    if k in m then m[k] else []
  }

  datatype StoreOp =
    | OpCommit(k: PartKey, r: Ref)
    | OpLoad(k: PartKey)
    | OpPrune(k: PartKey, cutoff: int)
    | OpReferenced(key: ObjKey)

  datatype StoreResult = Done | Loaded(rs: seq<Ref>) | Pruned(gone: seq<Ref>) | Answer(referenced: bool)

  /** MemIndexStore. */
  function MemStep(m: Store, op: StoreOp): (Store, StoreResult)
  {
    match op
    case OpCommit(k, r) => (m[k := Get(m, k) + [r]], Done)
    case OpLoad(k) => (m, Loaded(Get(m, k)))
    case OpPrune(k, cutoff) => (m[k := Kept(Get(m, k), cutoff)], Pruned(Gone(Get(m, k), cutoff)))
    case OpReferenced(key) => (m, Answer(Referenced(m, key)))
  }

  /** The store over the replicated metadata: a partition with no entry left has no key, and
      what a prune dropped is worked out from the state before it. */
  function FsmStep(m: Store, op: StoreOp): (Store, StoreResult)
  {
    match op
    case OpCommit(k, r) => (m[k := Get(m, k) + [r]], Done)
    case OpLoad(k) => (m, Loaded(Get(m, k)))
    case OpPrune(k, cutoff) =>
      var kept := Kept(Get(m, k), cutoff);
      (if kept == [] then m - {k} else m[k := kept], Pruned(Gone(Get(m, k), cutoff)))
    case OpReferenced(key) => (m, Answer(Referenced(m, key)))
  }

  function MemResults(m: Store, ops: seq<StoreOp>): seq<StoreResult>
    decreases |ops|
  {
    if ops == [] then [] else [MemStep(m, ops[0]).1] + MemResults(MemStep(m, ops[0]).0, ops[1..])
  }

  function FsmResults(m: Store, ops: seq<StoreOp>): seq<StoreResult>
    decreases |ops|
  {
    if ops == [] then [] else [FsmStep(m, ops[0]).1] + FsmResults(FsmStep(m, ops[0]).0, ops[1..])
  }

  /** The same entries for every partition, whether or not empty lists are stored. */
  ghost predicate Alike(m: Store, n: Store)
  {
    forall k :: Get(m, k) == Get(n, k)
  }

  lemma AlikeReferenced(m: Store, n: Store, key: ObjKey)
    requires Alike(m, n)
    ensures Referenced(m, key) <==> Referenced(n, key)
  {
    if Referenced(m, key) {
      var k :| k in m && KeyIn(m[k], key);
      assert Get(m, k) == Get(n, k) && k in n && KeyIn(n[k], key);
    }
    if Referenced(n, key) {
      var k :| k in n && KeyIn(n[k], key);
      assert Get(m, k) == Get(n, k) && k in m && KeyIn(m[k], key);
    }
  }

  lemma AlikeStep(m: Store, n: Store, op: StoreOp)
    requires Alike(m, n)
    ensures MemStep(m, op).1 == FsmStep(n, op).1 && Alike(MemStep(m, op).0, FsmStep(n, op).0)
  {
    if op.OpReferenced? {
      AlikeReferenced(m, n, op.key);
    } else {
      var m', n' := MemStep(m, op).0, FsmStep(n, op).0;
      assert Get(m, op.k) == Get(n, op.k);
      forall k ensures Get(m', k) == Get(n', k) {
        assert Get(m, k) == Get(n, k);
      }
    }
  }

  /** No sequence of operations can tell the two stores apart. */
  lemma {:induction false} StoresAgree(m: Store, n: Store, ops: seq<StoreOp>)
    requires Alike(m, n)
    ensures MemResults(m, ops) == FsmResults(n, ops)
    decreases |ops|
  {
    if ops != [] {
      AlikeStep(m, n, ops[0]);
      StoresAgree(MemStep(m, ops[0]).0, FsmStep(n, ops[0]).0, ops[1..]);
    }
  }

  /** The store after the first n operations. */
  function StoreAt(m: Store, ops: seq<StoreOp>, n: nat): Store
    requires n <= |ops|
  {
    if n == 0 then m else MemStep(StoreAt(m, ops, n - 1), ops[n - 1]).0
  }

  lemma {:induction false} StoreAfter(m: Store, ops: seq<StoreOp>, n: nat)
    requires 0 < n <= |ops|
    ensures StoreAt(m, ops, n) == StoreAt(MemStep(m, ops[0]).0, ops[1..], n - 1)
  {
    if n > 1 {
      StoreAfter(m, ops, n - 1);
      assert ops[1..][n - 2] == ops[n - 1];
    }
  }

  lemma {:induction false} ResultAt(m: Store, ops: seq<StoreOp>, n: nat)
    requires n < |ops|
    ensures |MemResults(m, ops)| == |ops| && MemResults(m, ops)[n] == MemStep(StoreAt(m, ops, n), ops[n]).1
    decreases n, |ops|
  {
    ResultCount(m, ops);
    if n > 0 {
      ResultAt(MemStep(m, ops[0]).0, ops[1..], n - 1);
      StoreAfter(m, ops, n);
      assert ops[1..][n - 1] == ops[n];
    }
  }

  lemma {:induction false} ResultCount(m: Store, ops: seq<StoreOp>)
    ensures |MemResults(m, ops)| == |ops|
    decreases |ops|
  {
    if ops != [] {
      ResultCount(MemStep(m, ops[0]).0, ops[1..]);
    }
  }

  /** Operation i commits the entry for partition k, and no prune before operation n reaches it. */
  predicate StandsSince(ops: seq<StoreOp>, i: int, n: int, k: PartKey, r: Ref)
  {
    && 0 <= i < n <= |ops| && ops[i] == OpCommit(k, r)
    && forall j | i < j < n && ops[j].OpPrune? && ops[j].k == k :: ops[j].cutoff < r.next
  }

  ghost predicate Stands(ops: seq<StoreOp>, n: int, k: PartKey, r: Ref)
  {
    exists i :: StandsSince(ops, i, n, k, r)
  }

  ghost predicate PointedAt(ops: seq<StoreOp>, n: int, key: ObjKey)
  {
    exists k, r :: Stands(ops, n, k, r) && r.key == key
  }

  /** One more operation: a commit adds its entry, a prune takes those it reaches. */
  lemma StandsStep(ops: seq<StoreOp>, n: nat, k: PartKey, r: Ref)
    requires n < |ops|
    ensures Stands(ops, n + 1, k, r) <==>
              || ops[n] == OpCommit(k, r)
              || (Stands(ops, n, k, r) && !(ops[n].OpPrune? && ops[n].k == k && r.next <= ops[n].cutoff))
  {
    if ops[n] == OpCommit(k, r) {
      assert StandsSince(ops, n, n + 1, k, r);
    }
    if i :| StandsSince(ops, i, n, k, r) {
      if !(ops[n].OpPrune? && ops[n].k == k && r.next <= ops[n].cutoff) {
        assert StandsSince(ops, i, n + 1, k, r);
      }
    }
    var next := n + 1;
    if i :| StandsSince(ops, i, next, k, r) {
      assert i < n ==> StandsSince(ops, i, n, k, r);
    }
  }

  /** The store holds exactly the entries that were committed and that no later prune reached. */
  lemma {:induction false} StoreHolds(ops: seq<StoreOp>, n: nat, k: PartKey, r: Ref)
    requires n <= |ops|
    ensures r in Get(StoreAt(map[], ops, n), k) <==> Stands(ops, n, k, r)
  {
    if n > 0 {
      var m, op := StoreAt(map[], ops, n - 1), ops[n - 1];
      StoreHolds(ops, n - 1, k, r);
      StandsStep(ops, n - 1, k, r);
      if op.OpPrune? && op.k == k {
        KeptIs(Get(m, k), op.cutoff);
      }
    }
  }

  lemma ReferencedStands(ops: seq<StoreOp>, n: nat, key: ObjKey)
    requires n <= |ops|
    ensures Referenced(StoreAt(map[], ops, n), key) <==> PointedAt(ops, n, key)
  {
    var m := StoreAt(map[], ops, n);
    if Referenced(m, key) {
      var j :| j in m && KeyIn(m[j], key);
      var i :| 0 <= i < |m[j]| && m[j][i].key == key;
      StoreHolds(ops, n, j, m[j][i]);
      assert Stands(ops, n, j, m[j][i]);
    }
    if j, q :| Stands(ops, n, j, q) && q.key == key {
      StoreHolds(ops, n, j, q);
      var i :| 0 <= i < |m[j]| && m[j][i] == q;
      assert KeyIn(m[j], key);
    }
  }

  /** A load returns, and a prune reports dropping, exactly the entries that stand; an object is
      referenced if and only if one of them points at it. */
  ghost predicate RightAnswer(ops: seq<StoreOp>, n: nat, a: StoreResult)
    requires n < |ops|
  {
    match ops[n]
    case OpCommit(_, _) => a == Done
    case OpLoad(k) => a.Loaded? && forall r :: r in a.rs <==> Stands(ops, n, k, r)
    case OpPrune(k, cutoff) => a.Pruned? && forall r :: r in a.gone <==> Stands(ops, n, k, r) && r.next <= cutoff
    case OpReferenced(key) => a.Answer? && (a.referenced <==> PointedAt(ops, n, key))
  }

  lemma MemAnswers(ops: seq<StoreOp>, n: nat)
    requires n < |ops|
    ensures RightAnswer(ops, n, MemStep(StoreAt(map[], ops, n), ops[n]).1)
  {
    var m := StoreAt(map[], ops, n);
    match ops[n]
    case OpCommit(_, _) =>
    case OpLoad(k) =>
      forall r ensures r in Get(m, k) <==> Stands(ops, n, k, r) {
        StoreHolds(ops, n, k, r);
      }
    case OpPrune(k, cutoff) =>
      KeptIs(Get(m, k), cutoff);
      forall r ensures r in Gone(Get(m, k), cutoff) <==> Stands(ops, n, k, r) && r.next <= cutoff {
        StoreHolds(ops, n, k, r);
      }
    case OpReferenced(key) => ReferencedStands(ops, n, key);
  }

  /** Either store, starting empty, gives the right answer to every operation. */
  lemma StoreAnswers(ops: seq<StoreOp>, n: nat)
    requires n < |ops|
    ensures |MemResults(map[], ops)| == |FsmResults(map[], ops)| == |ops|
    ensures RightAnswer(ops, n, MemResults(map[], ops)[n]) && RightAnswer(ops, n, FsmResults(map[], ops)[n])
  {
    StoresAgree(map[], map[], ops);
    ResultAt(map[], ops, n);
    MemAnswers(ops, n);
  }

  /** The metadata state machine prunes a partition's entries within their own array. */
  method FilterInPlace(a: array<Ref>, n: nat, cutoff: int) returns (m: nat)
    requires n <= a.Length
    modifies a
    ensures m <= n && a[..m] == Kept(old(a[..n]), cutoff)
  {
    m := 0;
    ghost var was := a[..n];
    for i := 0 to n
      invariant m <= i && a[..m] == Kept(was[..i], cutoff)
      invariant a[i..n] == was[i..]
    {
      assert was[..i + 1] == was[..i] + [was[i]];
      KeptJoin(was[..i], [was[i]], cutoff);
      assert a[i] == a[i..n][0] && was[i] == was[i..][0];
      assert [was[i]][1..] == [];
      if a[i].next > cutoff {
        a[m] := a[i];
        m := m + 1;
      }
      assert a[i + 1..n] == was[i + 1..];
    }
    assert was[..n] == was;
  }

  // ---------------------------------------------------------------- the cache

  /** The Index: a cache in front of a store. A partition is in sync once it has been loaded. */
  datatype Index = Index(store: Store, cache: Store, synced: set<PartKey>)

  datatype IndexOp = IxLoad(k: PartKey) | IxCommit(k: PartKey, r: Ref) | IxPrune(k: PartKey, cutoff: int)

  /** The relation a load establishes: some sorted arrangement of the stored entries. */
  ghost predicate Sorts(rs: seq<Ref>, out: seq<Ref>)
  {
    multiset(out) == multiset(rs) && forall i, j | 0 <= i < j < |out| :: out[i].base <= out[j].base
  }

  ghost predicate IndexNext(x: Index, op: IndexOp, y: Index)
  {
    match op
    case IxLoad(k) =>
      && y.store == x.store && y.synced == x.synced + {k}
      && y.cache.Keys == x.cache.Keys + {k} && Sorts(Get(x.store, k), y.cache[k])
      && (forall j | j in x.cache && j != k :: y.cache[j] == x.cache[j])
    case IxCommit(k, r) =>
      y == Index(MemStep(x.store, OpCommit(k, r)).0, x.cache[k := Get(x.cache, k) + [r]], x.synced)
    case IxPrune(k, cutoff) =>
      y == Index(MemStep(x.store, OpPrune(k, cutoff)).0, x.cache[k := Kept(Get(x.cache, k), cutoff)], x.synced)
  }

  /** Uploads commit a partition's slices in offset order. */
  predicate InOrder(x: Index, op: IndexOp)
  {
    op.IxCommit? ==>
      && op.r.base < op.r.next
      && forall i | 0 <= i < |Get(x.store, op.k)| :: Get(x.store, op.k)[i].next <= op.r.base
  }

  ghost predicate IndexOk(x: Index)
  {
    && (forall k {:trigger Ordered(Get(x.store, k))} :: Ordered(Get(x.store, k)))
    && (forall k {:trigger InSync(x, k)} | k in x.synced :: InSync(x, k))
  }

  predicate InSync(x: Index, k: PartKey)
  {
    Get(x.cache, k) == Get(x.store, k)
  }

  lemma SortedHead(rs: seq<Ref>, out: seq<Ref>)
    requires Ordered(rs) && Sorts(rs, out) && rs != []
    ensures out != [] && out[0] == rs[0]
  {
    assert rs[0] in multiset(rs);
    assert rs[0] in out;
    assert out[0] in multiset(out);
    assert out[0] in rs;
    var i :| 0 <= i < |out| && out[i] == rs[0];
    var j :| 0 <= j < |rs| && rs[j] == out[0];
    assert out[0].base <= out[i].base;
  }

  lemma SortedTail(rs: seq<Ref>, out: seq<Ref>)
    requires multiset(out) == multiset(rs) && rs != [] && out != [] && out[0] == rs[0]
    ensures multiset(out[1..]) == multiset(rs[1..])
  {
    assert rs == [rs[0]] + rs[1..] && out == [out[0]] + out[1..];
    assert multiset(rs[1..]) == multiset(rs) - multiset{rs[0]};
    assert multiset(out[1..]) == multiset(out) - multiset{out[0]};
  }

  /** Distinct bases have only one sorted arrangement. */
  lemma {:induction false} SortedUnique(rs: seq<Ref>, out: seq<Ref>)
    requires Ordered(rs) && Sorts(rs, out)
    ensures out == rs
  {
    assert |multiset(rs)| == |rs| && |multiset(out)| == |out|;
    if rs != [] {
      SortedHead(rs, out);
      SortedTail(rs, out);
      SortedUnique(rs[1..], out[1..]);
      assert rs == [rs[0]] + rs[1..] && out == [out[0]] + out[1..];
    }
  }

  lemma {:induction false} KeptOrdered(rs: seq<Ref>, cutoff: int)
    requires Ordered(rs)
    ensures Ordered(Kept(rs, cutoff))
  {
    if rs != [] {
      KeptOrdered(rs[1..], cutoff);
      var q := Kept(rs[1..], cutoff);
      forall i | 0 <= i < |q| ensures rs[0].next <= q[i].base {
        KeptIn(rs[1..], cutoff, i);
        var j :| 0 <= j < |rs[1..]| && rs[1..][j] == q[i];
        assert rs[j + 1] == q[i];
      }
      PrependOrdered(rs[0], q);
    }
  }

  lemma LoadStep(x: Index, k: PartKey, y: Index)
    requires IndexOk(x) && IndexNext(x, IxLoad(k), y)
    ensures IndexOk(y)
  {
    assert Ordered(Get(x.store, k));
    SortedUnique(Get(x.store, k), y.cache[k]);
    forall j | j in y.synced ensures InSync(y, j) {
      if j != k {
        assert InSync(x, j);
        assert j in x.cache <==> j in y.cache;
      }
    }
    forall j ensures Ordered(Get(y.store, j)) {
      assert Ordered(Get(x.store, j));
    }
  }

  lemma CommitStep(x: Index, k: PartKey, r: Ref, y: Index)
    requires IndexOk(x) && IndexNext(x, IxCommit(k, r), y) && InOrder(x, IxCommit(k, r))
    ensures IndexOk(y)
  {
    forall j | j in y.synced ensures InSync(y, j) {
      assert InSync(x, j);
    }
    forall j ensures Ordered(Get(y.store, j)) {
      assert Ordered(Get(x.store, j));
    }
  }

  lemma PruneStep(x: Index, k: PartKey, cutoff: int, y: Index)
    requires IndexOk(x) && IndexNext(x, IxPrune(k, cutoff), y)
    ensures IndexOk(y)
  {
    assert Ordered(Get(x.store, k));
    KeptOrdered(Get(x.store, k), cutoff);
    forall j | j in y.synced ensures InSync(y, j) {
      assert InSync(x, j);
    }
    forall j ensures Ordered(Get(y.store, j)) {
      assert Ordered(Get(x.store, j));
    }
  }

  /** Whatever mix of loads, ordered commits and prunes runs, a loaded partition's cache holds
      exactly its store's entries, sorted by base offset. */
  lemma {:induction false} IndexRun(xs: seq<Index>, ops: seq<IndexOp>, n: nat)
    requires |xs| == |ops| + 1 && n < |xs| && IndexOk(xs[0])
    requires forall i | 0 <= i < |ops| :: IndexNext(xs[i], ops[i], xs[i + 1]) && InOrder(xs[i], ops[i])
    ensures IndexOk(xs[n])
  {
    if n > 0 {
      IndexRun(xs, ops, n - 1);
      assert IndexNext(xs[n - 1], ops[n - 1], xs[n - 1 + 1]);
      match ops[n - 1]
      case IxLoad(k) => LoadStep(xs[n - 1], k, xs[n]);
      case IxCommit(k, r) => CommitStep(xs[n - 1], k, r, xs[n]);
      case IxPrune(k, cutoff) => PruneStep(xs[n - 1], k, cutoff, xs[n]);
    }
  }

  // ---------------------------------------------------------------- the cache as an object

  /** Puts one entry where it belongs in a sorted list. */
  method InsertSorted(rs: seq<Ref>, r: Ref) returns (out: seq<Ref>)
    requires forall i, j | 0 <= i < j < |rs| :: rs[i].base <= rs[j].base
    ensures Sorts(rs + [r], out)
  {
    var n := |rs|;
    while n > 0 && rs[n - 1].base > r.base
      invariant 0 <= n <= |rs| && (n < |rs| ==> r.base < rs[n].base)
    {
      n := n - 1;
    }
    out := rs[..n] + [r] + rs[n..];
    InsertedOrdered(rs, r, n);
    InsertedSame(rs, r, n);
  }

  lemma InsertedSame(rs: seq<Ref>, r: Ref, n: nat)
    requires n <= |rs|
    ensures multiset(rs[..n] + [r] + rs[n..]) == multiset(rs + [r])
  {
    assert rs == rs[..n] + rs[n..];
  }

  lemma InsertedOrdered(rs: seq<Ref>, r: Ref, n: nat)
    requires n <= |rs| && (forall i, j | 0 <= i < j < |rs| :: rs[i].base <= rs[j].base)
    requires (n < |rs| ==> r.base < rs[n].base) && (n > 0 ==> rs[n - 1].base <= r.base)
    ensures var out := rs[..n] + [r] + rs[n..]; forall i, j | 0 <= i < j < |out| :: out[i].base <= out[j].base
  {
    var out := rs[..n] + [r] + rs[n..];
    forall i, j | 0 <= i < j < |out| ensures out[i].base <= out[j].base {
      var a, b := if i < n then i else i - 1, if j < n then j else j - 1;
      assert i != n ==> out[i] == rs[a];
      assert j != n ==> out[j] == rs[b];
    }
  }

  /** sort.Slice by base offset. */
  method SortRefs(rs: seq<Ref>) returns (out: seq<Ref>)
    ensures Sorts(rs, out)
  {
    out := [];
    for i := 0 to |rs|
      invariant Sorts(rs[..i], out)
    {
      assert rs[..i + 1] == rs[..i] + [rs[i]];
      out := InsertSorted(out, rs[i]);
    }
    assert rs[..|rs|] == rs;
  }

  class IndexCache {
    var store: Store
    var refs: Store
    ghost var synced: set<PartKey>

    ghost function Value(): Index
      reads this
    {
      Index(store, refs, synced)
    }

    constructor (store: Store)
      ensures Value() == Index(store, map[], {})
    {
      this.store, refs, synced := store, map[], {};
    }

    /** load: the stored entries of a partition, sorted. */
    method Load(k: PartKey)
      modifies this
      ensures IndexNext(old(Value()), IxLoad(k), Value()) && Sorts(Get(store, k), Get(refs, k)) && store == old(store)
      ensures forall j | j != k :: Get(refs, j) == Get(old(refs), j)
    {
      var rs := SortRefs(Get(store, k));
      refs, synced := refs[k := rs], synced + {k};
    }

    /** commit: the store first, then the cache. */
    method Commit(k: PartKey, r: Ref)
      modifies this
      ensures IndexNext(old(Value()), IxCommit(k, r), Value())
      ensures Get(store, k) == Get(old(store), k) + [r] && Get(refs, k) == Get(old(refs), k) + [r]
      ensures forall j | j != k :: Get(store, j) == Get(old(store), j) && Get(refs, j) == Get(old(refs), j)
    {
      store := store[k := Get(store, k) + [r]];
      refs := refs[k := Get(refs, k) + [r]];
    }

    /** prune: drops the entries that end at or below the cutoff from both and returns them. */
    method Prune(k: PartKey, cutoff: int) returns (gone: seq<Ref>)
      modifies this
      ensures IndexNext(old(Value()), IxPrune(k, cutoff), Value()) && gone == Gone(Get(old(store), k), cutoff)
      ensures forall r :: r in Get(store, k) <==> r in Get(old(store), k) && r.next > cutoff
      ensures forall r :: r in Get(refs, k) <==> r in Get(old(refs), k) && r.next > cutoff
      ensures forall r :: r in gone <==> r in Get(old(store), k) && r.next <= cutoff
      ensures forall j | j != k :: Get(store, j) == Get(old(store), j) && Get(refs, j) == Get(old(refs), j)
    {
      KeptIs(Get(store, k), cutoff);
      KeptIs(Get(refs, k), cutoff);
      var kept;
      kept, gone := Split(Get(store, k), cutoff);
      store := store[k := kept];
      var rest, same := Split(Get(refs, k), cutoff);
      refs := refs[k := rest];
    }

    /** refFor: after any run, the entry a linear walk over the stored entries finds. */
    method RefFor(k: PartKey, off: int) returns (found: bool, r: Ref)
      requires IndexOk(Value()) && k in synced
      ensures var i := RefIndex(Get(store, k), off); found == (i >= 0) && (found ==> r == Get(store, k)[i])
      ensures found ==> r in Get(store, k) && r.base <= off < r.next
      ensures !found ==> forall e | e in Get(store, k) :: !(e.base <= off < e.next)
    {
      assert InSync(Value(), k) && Ordered(Get(store, k));
      var rs := Get(refs, k);
      var i := RefForOffset(rs, off);
      RefIndexExact(rs, off);
      found, r := i >= 0, Ref(ObjKey("", 0), 0, 0, 0, 0, 0);
      if found {
        r := rs[i];
      }
    }

    /** earliest and latest: the least and the greatest offset bound of the stored entries. */
    method Bounds(k: PartKey) returns (any: bool, earliest: int, latest: int)
      requires IndexOk(Value()) && k in synced
      ensures any == (Get(store, k) != [])
      ensures any ==> exists r :: r in Get(store, k) && r.base == earliest
      ensures any ==> exists r :: r in Get(store, k) && r.next == latest
      ensures any ==> forall r | r in Get(store, k) :: earliest <= r.base && r.next <= latest
    {
      assert InSync(Value(), k) && Ordered(Get(store, k));
      var rs := Get(refs, k);
      any, earliest, latest := |rs| > 0, 0, 0;
      if any {
        earliest, latest := rs[0].base, rs[|rs| - 1].next;
        assert rs[0] in rs && rs[|rs| - 1] in rs;
      }
    }
  }

  /** The loop of prune. */
  method Split(rs: seq<Ref>, cutoff: int) returns (kept: seq<Ref>, gone: seq<Ref>)
    ensures kept == Kept(rs, cutoff) && gone == Gone(rs, cutoff)
  {
    kept, gone := [], [];
    for i := 0 to |rs|
      invariant kept == Kept(rs[..i], cutoff) && gone == Gone(rs[..i], cutoff)
    {
      assert rs[..i + 1] == rs[..i] + [rs[i]] && [rs[i]][1..] == [];
      KeptJoin(rs[..i], [rs[i]], cutoff);
      GoneJoin(rs[..i], [rs[i]], cutoff);
      if rs[i].next > cutoff {
        kept := kept + [rs[i]];
      } else {
        gone := gone + [rs[i]];
      }
    }
    assert rs[..|rs|] == rs;
  }
}
