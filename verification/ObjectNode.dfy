/** The loops of the object-backed log, over its buffers, entries and objects: building an object,
    putting a snapshot back, counting what retention drops, collecting objects. */
module ObjectNode {
  import opened Bytes
  import opened Record
  import opened Wal
  import opened ObjectStorage
  import opened ObjectRuns

  // ---------------------------------------------------------------- upload

  method ConcatLoop(bs: seq<Batch>) returns (out: seq<byte>)
    ensures out == Concat(bs)
  {
    out := [];
    for i := 0 to |bs|
      invariant out == Concat(bs[..i])
    {
      ConcatAround(bs, i);
      assert bs[..i + 1] == bs[..i] + [bs[i]];
      ConcatJoin(bs[..i], [bs[i]]);
      ConcatOne(bs[i]);
      out := out + bs[i].bytes;
    }
    assert bs[..|bs|] == bs;
  }

  /** The index entries written so far are the ones the object's layout calls for. */
  ghost predicate CommitsFor(commits: map<PartKey, Ref>, snap: Buffer, order: seq<PartKey>, key: ObjKey, now: int)
    requires forall i | 0 <= i < |order| :: order[i] in snap
  {
    && (forall k :: k in commits <==> k in order)
    && (forall k {:trigger commits[k]} | k in order && k in commits :: commits[k] == RefFor(snap, order, k, key, now))
  }

  lemma CommitsNext(commits: map<PartKey, Ref>, snap: Buffer, order: seq<PartKey>, key: ObjKey, now: int, k: PartKey,
                    r: Ref)
    requires (forall i | 0 <= i < |order| :: order[i] in snap) && CommitsFor(commits, snap, order, key, now)
    requires k in snap && k !in order
    requires r == Ref(key, snap[k].base, snap[k].next, |ObjectBytes(snap, order)|, |Concat(snap[k].batches)|, now)
    ensures CommitsFor(commits[k := r], snap, order + [k], key, now)
  {
    var next := order + [k];
    assert next[..|order|] == order;
    forall j | j in next ensures commits[k := r][j] == RefFor(snap, next, j, key, now) {
      assert j != k ==> j in order;
    }
  }

  /** Every partition of the snapshot is either still left or placed, once. */
  ghost predicate Placing(snap: Buffer, left: set<PartKey>, order: seq<PartKey>)
  {
    && left <= snap.Keys && Enumerates(order, snap - left)
  }

  lemma PlaceNext(snap: Buffer, left: set<PartKey>, order: seq<PartKey>, k: PartKey)
    requires Placing(snap, left, order) && k in left
    ensures Placing(snap, left - {k}, order + [k]) && k !in order
    ensures forall i | 0 <= i < |order| :: order[i] in snap
    ensures ObjectBytes(snap, order + [k]) == ObjectBytes(snap, order) + Concat(snap[k].batches)
  {
    assert (order + [k])[..|order|] == order;
  }

  /** The object and the entries are right for the partitions placed so far. */
  ghost predicate Laid(snap: Buffer, left: set<PartKey>, order: seq<PartKey>, data: seq<byte>,
                       commits: map<PartKey, Ref>, key: ObjKey, now: int)
  {
    && Placing(snap, left, order) && (forall i | 0 <= i < |order| :: order[i] in snap)
    && data == ObjectBytes(snap, order) && CommitsFor(commits, snap, order, key, now)
  }

  lemma LaidNext(snap: Buffer, left: set<PartKey>, order: seq<PartKey>, data: seq<byte>, commits: map<PartKey, Ref>,
                 key: ObjKey, now: int, k: PartKey)
    requires Laid(snap, left, order, data, commits, key, now) && k in left
    ensures k in snap
    ensures var bytes := Concat(snap[k].batches);
            Laid(snap, left - {k}, order + [k], data + bytes,
                 commits[k := Ref(key, snap[k].base, snap[k].next, |data|, |bytes|, now)], key, now)
  {
    PlaceNext(snap, left, order, k);
    var bytes := Concat(snap[k].batches);
    CommitsNext(commits, snap, order, key, now, k, Ref(key, snap[k].base, snap[k].next, |data|, |bytes|, now));
  }

  lemma AllLaid(snap: Buffer, order: seq<PartKey>, data: seq<byte>, commits: map<PartKey, Ref>, key: ObjKey, now: int)
    requires Laid(snap, {}, order, data, commits, key, now)
    ensures Enumerates(order, snap) && data == ObjectBytes(snap, order) && CommitsFor(commits, snap, order, key, now)
  {
    assert snap - {} == snap;
  }

  // ---------------------------------------------------------------- the order of the partitions

  function Decimal(n: nat): seq<byte>
  {
    if n < 10 then [48 + n] else Decimal(n / 10) + [48 + n % 10]
  }

  /** indexKey: the topic, a zero byte, and the partition number in decimal. */
  function Name(k: PartKey): seq<byte>
  {
    k.topic + [0] + Itoa(k.partition)
  }

  /** The number that decimal digits say. */
  function Said(s: seq<byte>): int
  {
    if s == [] then 0 else 10 * Said(s[..|s| - 1]) + s[|s| - 1] - 48
  }

  lemma {:induction false} DecimalIs(n: nat)
    ensures Said(Decimal(n)) == n && Decimal(n) != [] && forall i | 0 <= i < |Decimal(n)| :: 48 <= Decimal(n)[i] <= 57
  {
    if n < 10 {
      assert [48 + n][..0] == [];
    } else {
      DecimalIs(n / 10);
      assert Decimal(n)[..|Decimal(n)| - 1] == Decimal(n / 10);
    }
  }

  /** The last zero byte of a name ends its topic. */
  lemma LastZero(a: seq<byte>, x: seq<byte>)
    requires 0 !in x
    ensures var s := a + [0] + x; s[|a|] == 0 && forall i | |a| < i < |s| :: s[i] != 0
  {
    var s := a + [0] + x;
    forall i | |a| < i < |s| ensures s[i] != 0 {
      assert s[i] == x[i - |a| - 1];
    }
  }

  lemma SameSplit(a: seq<byte>, x: seq<byte>, b: seq<byte>, y: seq<byte>)
    requires a + [0] + x == b + [0] + y && 0 !in x && 0 !in y
    ensures a == b && x == y
  {
    var s := a + [0] + x;
    LastZero(a, x);
    LastZero(b, y);
    assert |a| == |b|;
    assert s[..|a|] == a && s[..|b|] == b && s[|a| + 1..] == x && s[|b| + 1..] == y;
  }

  /** strconv.Itoa. */
  function Itoa(n: int): seq<byte>
  {
    if n < 0 then [45] + Decimal(-n) else Decimal(n)
  }

  lemma ItoaInjective(m: int, n: int)
    ensures 0 !in Itoa(m) && 0 !in Itoa(n) && (Itoa(m) == Itoa(n) ==> m == n)
  {
    DecimalIs(if m < 0 then -m else m);
    DecimalIs(if n < 0 then -n else n);
    if Itoa(m) == Itoa(n) {
      assert (m < 0 <==> Itoa(m)[0] == 45) && (n < 0 <==> Itoa(n)[0] == 45);
      if m < 0 {
        assert Itoa(m)[1..] == Decimal(-m) && Itoa(n)[1..] == Decimal(-n);
      }
    }
  }

  /** Different partitions have different names, whatever bytes their topics hold. */
  lemma NameInjective(j: PartKey, k: PartKey)
    requires Name(j) == Name(k)
    ensures j == k
  {
    ItoaInjective(j.partition, k.partition);
    SameSplit(j.topic, Itoa(j.partition), k.topic, Itoa(k.partition));
  }

  /** The order of sort.Strings. */
  predicate NameLe(a: seq<byte>, b: seq<byte>)
  {
    a == [] || (b != [] && (a[0] < b[0] || (a[0] == b[0] && NameLe(a[1..], b[1..]))))
  }

  lemma {:induction false} NameTotal(a: seq<byte>, b: seq<byte>)
    ensures NameLe(a, b) || NameLe(b, a)
  {
    if a != [] && b != [] {
      NameTotal(a[1..], b[1..]);
    }
  }

  lemma {:induction false} NameTransitive(a: seq<byte>, b: seq<byte>, c: seq<byte>)
    requires NameLe(a, b) && NameLe(b, c)
    ensures NameLe(a, c)
  {
    if a != [] && a[0] == b[0] == c[0] {
      NameTransitive(a[1..], b[1..], c[1..]);
    }
  }

  predicate Precedes(j: PartKey, k: PartKey)
  {
    NameLe(Name(j), Name(k))
  }

  predicate InNameOrder(order: seq<PartKey>)
  {
    forall i, j | 0 <= i < j < |order| :: Precedes(order[i], order[j])
  }

  lemma {:induction false} FirstExists(s: set<PartKey>) returns (k: PartKey)
    requires s != {}
    ensures k in s && forall j | j in s :: Precedes(k, j)
    decreases |s|
  {
    k :| k in s;
    NameTotal(Name(k), Name(k));
    if s != {k} {
      var rest := s - {k};
      var r := FirstExists(rest);
      NameTotal(Name(k), Name(r));
      var m := if Precedes(k, r) then k else r;
      forall j | j in s ensures Precedes(m, j) {
        if j in rest && m == k {
          NameTransitive(Name(k), Name(r), Name(j));
        }
      }
      k := m;
    } else {
      forall j | j in s ensures j == k {
        assert j in {k};
      }
    }
  }

  /** The loop of upload: lays the buffered partitions one after the other, in the order of
      their names, into one object and records where each one went. */
  method BuildObject(snap: Buffer, key: ObjKey, now: int)
      returns (data: seq<byte>, commits: map<PartKey, Ref>, ghost order: seq<PartKey>)
    ensures Enumerates(order, snap) && data == ObjectBytes(snap, order)
    ensures CommitsFor(commits, snap, order, key, now) && InNameOrder(order)
  {
    data, commits, order := [], map[], [];
    var left := snap.Keys;
    while left != {}
      invariant Laid(snap, left, order, data, commits, key, now)
      invariant InNameOrder(order) && forall i, j | 0 <= i < |order| && j in left :: Precedes(order[i], j)
      decreases |left|
    {
      ghost var first := FirstExists(left);
      var k :| k in left && forall j | j in left :: Precedes(k, j);
      LaidNext(snap, left, order, data, commits, key, now, k);
      data, commits := PlaceOne(data, commits, k, snap[k], key, now);
      left, order := left - {k}, order + [k];
    }
    AllLaid(snap, order, data, commits, key, now);
  }

  /** Appending one partition to the object and its entry to the list. */
  method PlaceOne(buf: seq<byte>, commits: map<PartKey, Ref>, k: PartKey, p: Pending, key: ObjKey, now: int)
      returns (data: seq<byte>, commits': map<PartKey, Ref>)
    ensures data == buf + Concat(p.batches)
    ensures commits' == commits[k := Ref(key, p.base, p.next, |buf|, |Concat(p.batches)|, now)]
  {
    var pos := |buf|;
    var bytes := ConcatLoop(p.batches);
    data := buf + bytes;
    commits' := commits[k := Ref(key, p.base, p.next, pos, |data| - pos, now)];
  }

  function At(m: Buffer, k: PartKey): seq<Pending>
  {
    if k in m then [m[k]] else []
  }

  /** The snapshot's partitions are put back, except those left. */
  ghost predicate PuttingBack(snap: Buffer, pending: Buffer, left: set<PartKey>, merged: Buffer)
  {
    && left <= snap.Keys
    && forall k {:trigger At(merged, k)} ::
         At(merged, k) == if k in left then At(pending, k) else At(Restored(snap, pending), k)
  }

  lemma PutBackNext(snap: Buffer, pending: Buffer, left: set<PartKey>, merged: Buffer, k: PartKey)
    requires PuttingBack(snap, pending, left, merged) && k in left
    ensures var p := if k in merged then Merge(snap[k], merged[k]) else snap[k];
            PuttingBack(snap, pending, left - {k}, merged[k := p])
  {
    assert At(merged, k) == At(pending, k);
    var p := if k in merged then Merge(snap[k], merged[k]) else snap[k];
    forall j
      ensures At(merged[k := p], j) == if j in left - {k} then At(pending, j) else At(Restored(snap, pending), j)
    {
      assert j != k ==> At(merged[k := p], j) == At(merged, j);
    }
  }

  lemma AllPutBack(snap: Buffer, pending: Buffer, merged: Buffer)
    requires PuttingBack(snap, pending, {}, merged)
    ensures merged == Restored(snap, pending)
  {
    var r := Restored(snap, pending);
    forall k ensures k in merged <==> k in r {
      assert At(merged, k) == At(r, k);
    }
    forall k | k in merged ensures merged[k] == r[k] {
      assert At(merged, k) == At(r, k);
    }
  }

  method PutBack(pending: Buffer, k: PartKey, old_: Pending) returns (merged: Buffer)
    ensures merged == pending[k := if k in pending then Merge(old_, pending[k]) else old_]
  {
    var p := old_;
    if k in pending {
      var cur := pending[k];
      p := Pending(p.base, cur.next, p.batches + cur.batches, p.bytes + cur.bytes);
    }
    merged := pending[k := p];
  }

  method MergeBuffers(snap: Buffer, pending: Buffer) returns (merged: Buffer)
    ensures merged == Restored(snap, pending)
  {
    merged := pending;
    var left := snap.Keys;
    while left != {}
      invariant PuttingBack(snap, pending, left, merged)
      decreases |left|
    {
      var k :| k in left;
      PutBackNext(snap, pending, left, merged, k);
      merged := PutBack(merged, k, snap[k]);
      left := left - {k};
    }
    AllPutBack(snap, pending, merged);
  }

  /** restore: the failed snapshot goes back in front of what was appended meanwhile, and the
      byte counter is summed up again. */
  method RestoreBuffer(snap: Buffer, pending: Buffer) returns (merged: Buffer, bytes: int)
    ensures merged == Restored(snap, pending) && bytes == SumBytes(merged)
  {
    merged := MergeBuffers(snap, pending);
    bytes := TotalBytes(merged);
  }

  method TotalBytes(m: Buffer) returns (bytes: int)
    ensures bytes == SumBytes(m)
  {
    bytes := 0;
    var rest := m;
    while rest != map[]
      invariant rest.Keys <= m.Keys && forall k | k in rest :: rest[k] == m[k]
      invariant bytes + SumBytes(rest) == SumBytes(m)
      decreases |rest|
    {
      var k :| k in rest;
      SumOne(rest, k);
      bytes, rest := bytes + rest[k].bytes, rest - {k};
    }
  }

  /** Committing every entry to the index. */
  method CommitAll(refs: map<PartKey, seq<Ref>>, commits: map<PartKey, Ref>) returns (out: map<PartKey, seq<Ref>>)
    requires commits.Keys <= refs.Keys
    ensures out == map k | k in refs :: if k in commits then refs[k] + [commits[k]] else refs[k]
  {
    out := refs;
    var left := commits.Keys;
    while left != {}
      invariant left <= commits.Keys && out.Keys == refs.Keys
      invariant forall k | k in refs :: out[k] == if k in commits && k !in left then refs[k] + [commits[k]] else refs[k]
      decreases |left|
    {
      var k :| k in left;
      out, left := out[k := out[k] + [commits[k]]], left - {k};
    }
  }

  // ---------------------------------------------------------------- retention

  method TotalLength(rs: seq<Ref>) returns (total: int)
    ensures total == RefBytes(rs)
  {
    total := 0;
    for i := |rs| downto 0
      invariant total == RefBytes(rs[i..])
    {
      assert rs[i..][1..] == rs[i + 1..];
      total := total + rs[i].length;
    }
    assert rs[0..] == rs;
  }

  /** The retention loop counts the same entries as DropCount. */
  method CountDropped(rs: seq<Ref>, size: int, now: int, maxAgeMs: int, maxBytes: int) returns (dropped: nat)
    ensures dropped == DropCount(rs, size, now, maxAgeMs, maxBytes)
  {
    dropped := 0;
    var total := size;
    while dropped < |rs|
      invariant dropped <= |rs|
      invariant DropCount(rs, size, now, maxAgeMs, maxBytes)
                == dropped + DropCount(rs[dropped..], total, now, maxAgeMs, maxBytes)
    {
      var r := rs[dropped];
      assert rs[dropped..][0] == r && rs[dropped..][1..] == rs[dropped + 1..];
      var expired := maxAgeMs > 0 && now - r.uploadedMs > maxAgeMs;
      var overSize := maxBytes > 0 && total > maxBytes;
      if !expired && !overSize {
        return;
      }
      total := total - r.length;
      dropped := dropped + 1;
    }
  }

  /** Deletes each object of a dropped entry, once, unless some partition still points at it. */
  method CollectLoop(objects: map<ObjKey, seq<byte>>, refs: map<PartKey, seq<Ref>>, gone: seq<Ref>)
      returns (left: map<ObjKey, seq<byte>>)
    ensures left == Collect(objects, refs, gone)
    ensures forall key :: key in left <==> key in objects && (Referenced(refs, key) || !KeyIn(gone, key))
    ensures forall key | key in left :: left[key] == objects[key]
  {
    left := objects;
    var seen: set<ObjKey> := {};
    for i := 0 to |gone|
      invariant forall key :: key in seen <==> KeyIn(gone[..i], key)
      invariant left == Collect(objects, refs, gone[..i])
    {
      var key := gone[i].key;
      KeyInNext(gone, i);
      if key !in seen {
        seen := seen + {key};
        if !Referenced(refs, key) {
          left := left - {key};
        }
      }
    }
    assert gone[..|gone|] == gone;
  }

  lemma KeyInNext(rs: seq<Ref>, i: nat)
    requires i < |rs|
    ensures forall key :: KeyIn(rs[..i + 1], key) <==> KeyIn(rs[..i], key) || key == rs[i].key
  {
    forall key ensures KeyIn(rs[..i + 1], key) <==> KeyIn(rs[..i], key) || key == rs[i].key {
      var a, c := rs[..i], rs[..i + 1];
      assert forall j | 0 <= j < i :: a[j] == c[j];
      assert c[i].key == rs[i].key;
    }
  }
}
