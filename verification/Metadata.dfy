/** Cluster metadata: the placement of every partition, changed only by commands applied in the
    order of one replicated log; and the code that computes those commands, possibly from a view
    that is out of date by the time they are applied. */
module Metadata {
  import Bytes

  datatype PartMeta = PartMeta(replicas: seq<int>, leader: int, isr: seq<int>, epoch: int)
  type Topics = map<string, seq<PartMeta>>

  datatype Command =
    | CreateTopic(topic: string, replicas: seq<seq<int>>)
    | CreatePartitions(topic: string, replicas: seq<seq<int>>)
    | ChangeLeader(topic: string, p: int, leader: int, isr: seq<int>)
    | ChangeIsr(topic: string, p: int, isr: seq<int>)
    | Unknown

  predicate Distinct(ids: seq<int>)
  {
    forall i, j | 0 <= i < j < |ids| :: ids[i] != ids[j]
  }

  predicate Within(ids: seq<int>, all: seq<int>)
  {
    forall i | 0 <= i < |ids| :: ids[i] in all
  }

  /** A signed 32-bit increment. */
  function Bump(e: int): int
  {
    if e == 0x7FFF_FFFF then -0x8000_0000 else e + 1
  }

  // ---------------------------------------------------------------- applying commands

  /** One partition of a new topic: the first replica leads, all are in sync. */
  function Seeded(rs: seq<int>): PartMeta
  {
    PartMeta(rs, if rs == [] then -1 else rs[0], rs, 0)
  }

  function SeededAll(replicas: seq<seq<int>>): (ps: seq<PartMeta>)
    ensures |ps| == |replicas|
  {
    if replicas == [] then []
    else SeededAll(replicas[..|replicas| - 1]) + [Seeded(replicas[|replicas| - 1])]
  }

  predicate Has(s: Topics, topic: string, p: int)
  {
    topic in s && 0 <= p < |s[topic]|
  }

  function Part(s: Topics, topic: string, p: int): PartMeta
    requires Has(s, topic, p)
  {
    s[topic][p]
  }

  /** applyLocked, on the placement. A refused command changes nothing. */
  function Apply(s: Topics, c: Command): Topics
  {
    match c
    case CreateTopic(topic, replicas) => if topic in s then s else s[topic := SeededAll(replicas)]
    case CreatePartitions(topic, replicas) =>
      if topic in s then s[topic := s[topic] + SeededAll(replicas)] else s
    case ChangeLeader(topic, p, leader, isr) =>
      if Has(s, topic, p) then
        s[topic := s[topic][p := s[topic][p].(leader := leader, isr := isr, epoch := Bump(s[topic][p].epoch))]]
      else s
    case ChangeIsr(topic, p, isr) =>
      if Has(s, topic, p) then s[topic := s[topic][p := s[topic][p].(isr := isr)]] else s
    case Unknown => s
  }

  predicate Accepted(s: Topics, c: Command)
  {
    match c
    case CreateTopic(topic, _) => topic !in s
    case CreatePartitions(topic, _) => topic in s
    case ChangeLeader(topic, p, _, _) => Has(s, topic, p)
    case ChangeIsr(topic, p, _) => Has(s, topic, p)
    case Unknown => false
  }

  /** The state after the first n commands of the log. */
  function StateAt(log: seq<Command>, n: nat): Topics
    requires n <= |log|
  {
    if n == 0 then map[] else Apply(StateAt(log, n - 1), log[n - 1])
  }

  // ---------------------------------------------------------------- what each command does

  /** A partition as creating it leaves it: the first replica leads, all are in sync, epoch 0. */
  predicate Fresh(pm: PartMeta, rs: seq<int>)
  {
    pm.replicas == rs && pm.isr == rs && pm.epoch == 0 && pm.leader == if rs == [] then -1 else rs[0]
  }

  /** Every topic but this one is as it was. */
  predicate OthersSame(s: Topics, t: Topics, topic: string)
  {
    t.Keys + {topic} == s.Keys + {topic} && forall x | x in s && x != topic :: t[x] == s[x]
  }

  lemma {:induction false} SeededAt(replicas: seq<seq<int>>, i: nat)
    requires i < |replicas|
    ensures SeededAll(replicas)[i] == Seeded(replicas[i]) && Fresh(SeededAll(replicas)[i], replicas[i])
  {
    var n := |replicas| - 1;
    if i < n {
      SeededAt(replicas[..n], i);
    }
  }

  /** Creating a topic that is not there gives it one fresh partition for each replica list. */
  lemma CreatesTopic(s: Topics, topic: string, replicas: seq<seq<int>>)
    ensures var t := Apply(s, CreateTopic(topic, replicas));
            if topic in s then t == s
            else && topic in t && |t[topic]| == |replicas| && OthersSame(s, t, topic)
                 && forall i | 0 <= i < |replicas| :: Fresh(t[topic][i], replicas[i])
  {
    forall i | 0 <= i < |replicas| ensures Fresh(SeededAll(replicas)[i], replicas[i]) {
      SeededAt(replicas, i);
    }
  }

  /** Creating partitions of a topic that is there adds one fresh partition for each replica list
      behind the ones it has. */
  lemma AddsPartitions(s: Topics, topic: string, replicas: seq<seq<int>>)
    ensures var t := Apply(s, CreatePartitions(topic, replicas));
            if topic !in s then t == s
            else && topic in t && |t[topic]| == |s[topic]| + |replicas| && OthersSame(s, t, topic)
                 && (forall i | 0 <= i < |s[topic]| :: t[topic][i] == s[topic][i])
                 && forall i | 0 <= i < |replicas| :: Fresh(t[topic][|s[topic]| + i], replicas[i])
  {
    forall i | 0 <= i < |replicas| ensures Fresh(SeededAll(replicas)[i], replicas[i]) {
      SeededAt(replicas, i);
    }
  }

  /** Nothing but partition p of the topic may differ, and that one keeps its replicas. */
  predicate OnlyPart(s: Topics, t: Topics, topic: string, p: int)
    requires Has(s, topic, p)
  {
    && Has(t, topic, p) && |t[topic]| == |s[topic]| && OthersSame(s, t, topic)
    && t[topic][p].replicas == s[topic][p].replicas
    && forall i | 0 <= i < |s[topic]| && i != p :: t[topic][i] == s[topic][i]
  }

  /** A leader change sets the leader and the in-sync set of one partition and counts its epoch up,
      over the end of the 32 bits if need be. */
  lemma ChangesLeader(s: Topics, topic: string, p: int, leader: int, isr: seq<int>)
    ensures var t := Apply(s, ChangeLeader(topic, p, leader, isr));
            if !Has(s, topic, p) then t == s
            else && OnlyPart(s, t, topic, p) && t[topic][p].leader == leader && t[topic][p].isr == isr
                 && (s[topic][p].epoch < 0x7FFF_FFFF ==> t[topic][p].epoch == s[topic][p].epoch + 1)
                 && (s[topic][p].epoch == 0x7FFF_FFFF ==> t[topic][p].epoch == -0x8000_0000)
  {
  }

  /** An ISR change sets the in-sync set of one partition. */
  lemma ChangesIsr(s: Topics, topic: string, p: int, isr: seq<int>)
    ensures var t := Apply(s, ChangeIsr(topic, p, isr));
            if !Has(s, topic, p) then t == s
            else && OnlyPart(s, t, topic, p) && t[topic][p].isr == isr
                 && t[topic][p].leader == s[topic][p].leader && t[topic][p].epoch == s[topic][p].epoch
  {
  }

  class Fsm {
    var topics: Topics

    constructor ()
      ensures topics == map[]
    {
      topics := map[];
    }

    /** Apply of one committed command. */
    method ApplyCommand(c: Command) returns (ok: bool)
      modifies this
      ensures topics == Apply(old(topics), c) && ok == Accepted(old(topics), c)
    {
      ok := false;
      match c {
        case CreateTopic(topic, replicas) =>
          if topic !in topics {
            var parts := PartsFromReplicas(replicas);
            topics, ok := topics[topic := parts], true;
          }
        case CreatePartitions(topic, replicas) =>
          if topic in topics {
            var parts := PartsFromReplicas(replicas);
            topics, ok := topics[topic := topics[topic] + parts], true;
          }
        case ChangeLeader(topic, p, leader, isr) =>
          if topic in topics && 0 <= p < |topics[topic]| {
            var pm := topics[topic][p];
            pm := PartMeta(pm.replicas, leader, isr, Bump(pm.epoch));
            topics, ok := topics[topic := topics[topic][p := pm]], true;
          }
        case ChangeIsr(topic, p, isr) =>
          if topic in topics && 0 <= p < |topics[topic]| {
            var pm := topics[topic][p];
            topics, ok := topics[topic := topics[topic][p := pm.(isr := isr)]], true;
          }
        case Unknown =>
      }
    }

    /** Replaying a prefix of the log, as every node does. */
    method ApplyLog(log: seq<Command>)
      requires topics == map[]
      modifies this
      ensures topics == StateAt(log, |log|)
    {
      for i := 0 to |log|
        invariant topics == StateAt(log, i)
      {
        var ok := ApplyCommand(log[i]);
      }
    }
  }

  /** partsFromReplicas. */
  method PartsFromReplicas(replicas: seq<seq<int>>) returns (parts: seq<PartMeta>)
    ensures parts == SeededAll(replicas)
    ensures |parts| == |replicas| && forall i | 0 <= i < |replicas| :: Fresh(parts[i], replicas[i])
  {
    parts := [];
    for i := 0 to |replicas|
      invariant parts == SeededAll(replicas[..i])
    {
      var rs := replicas[i];
      var pm := PartMeta(rs, -1, rs, 0);
      if |rs| > 0 {
        pm := pm.(leader := rs[0]);
      }
      assert replicas[..i + 1][..i] == replicas[..i];
      parts := parts + [pm];
    }
    assert replicas[..|replicas|] == replicas;
    forall i | 0 <= i < |replicas| ensures Fresh(parts[i], replicas[i]) {
      SeededAt(replicas, i);
    }
  }

  // ---------------------------------------------------------------- initial placement

  const UINT32 := 0x1_0000_0000

  /** Where the replicas of a partition start among n brokers; hash is the topic's 32-bit hash. */
  function Start(hash: nat, p: int, n: nat): nat
    requires n > 0
  {
    ((hash + p % UINT32) % UINT32) % n
  }

  /** Partition 0 starts at the hash; each next partition starts one broker further round, except
      where the 32-bit sum wraps to 0. */
  lemma StartsInTurn(hash: nat, p: nat, n: nat)
    requires 0 < n && p + 1 < UINT32
    ensures Start(hash, 0, n) == hash % UINT32 % n
    ensures var start, next := Start(hash, p, n), Start(hash, p + 1, n);
            if (hash + p + 1) % UINT32 == 0 then next == 0
            else if start + 1 == n then next == 0 else next == start + 1
  {
    StartIs(hash, 0, n);
    StartIs(hash, p, n);
    StartIs(hash, p + 1, n);
    InTurn(hash + p, UINT32, n);
  }

  lemma StartIs(hash: nat, p: nat, n: nat)
    requires 0 < n && p < UINT32
    ensures Start(hash, p, n) == (hash + p) % UINT32 % n
  {
    Bytes.ModUnique(p, UINT32, 0, p);
  }

  lemma InTurn(v: nat, m: nat, n: nat)
    requires 0 < n && 0 < m
    ensures var a, b := v % m, (v + 1) % m;
            b % n == if b == 0 then 0 else if a % n + 1 == n then 0 else a % n + 1
  {
    Successor(v, m);
    if (v + 1) % m != 0 {
      Successor(v % m, n);
    } else {
      Bytes.ModUnique(0, n, 0, 0);
    }
  }

  /** Counting on by one counts the remainder on by one, or back to 0. */
  lemma Successor(v: nat, n: nat)
    requires 0 < n
    ensures (v + 1) % n == if v % n + 1 == n then 0 else v % n + 1
  {
    var q, r := v / n, v % n;
    assert v == q * n + r;
    if r + 1 == n {
      assert v + 1 == (q + 1) * n + 0;
      Bytes.ModUnique(v + 1, n, q + 1, 0);
    } else {
      Bytes.ModUnique(v + 1, n, q, r + 1);
    }
  }

  function LeaderFor(brokers: seq<int>, hash: nat, p: int): int
    requires brokers != []
  {
    brokers[Start(hash, p, |brokers|)]
  }

  /** As many replicas as asked for, at least one, at most one per broker. */
  function Clamped(rf: int, n: nat): (r: int)
    requires n > 0
    ensures 1 <= r <= n && (r < rf ==> r == n) && (r > rf ==> r == 1)
  {
    var r := if rf < 1 then 1 else rf;
    if r > n then n else r
  }

  /** ReplicasFor: rf different brokers, the first of them LeaderFor's. */
  method ReplicasFor(brokers: seq<int>, hash: nat, p: int, rf: int) returns (out: seq<int>)
    requires brokers != [] && |brokers| < 0x8000_0000 && Distinct(brokers)
    ensures |out| == Clamped(rf, |brokers|) && Distinct(out) && Within(out, brokers)
    ensures out[0] == LeaderFor(brokers, hash, p)
    ensures var start := Start(hash, p, |brokers|);
            forall k | 0 <= k < |out| ::
              out[k] == brokers[if start + k < |brokers| then start + k else start + k - |brokers|]
  {
    var n := |brokers|;
    var r := if rf < 1 then 1 else rf;
    r := if r > n then n else r;
    var start := Start(hash, p, n);
    out := [];
    for i := 0 to r
      invariant |out| == i && forall k | 0 <= k < i :: out[k] == brokers[Around(start, k, n)]
    {
      out := out + [brokers[(start + i) % UINT32 % n]];
      AroundIs(start, i, n);
    }
    forall i, j | 0 <= i < j < |out| ensures out[i] != out[j] {
      assert Around(start, i, n) != Around(start, j, n);
    }
    assert Around(start, 0, n) == start;
  }

  /** The broker k places after start, going round. */
  function Around(start: nat, k: nat, n: nat): (i: nat)
    requires start < n && k < n
    ensures i < n
  {
    if start + k < n then start + k else start + k - n
  }

  lemma AroundIs(start: nat, k: nat, n: nat)
    requires start < n < 0x8000_0000 && k < n
    ensures (start + k) % UINT32 % n == Around(start, k, n)
  {
    Bytes.ModUnique(start + k, UINT32, 0, start + k);
    if start + k >= n {
      Bytes.ModUnique(start + k, n, 1, start + k - n);
    } else {
      Bytes.ModUnique(start + k, n, 0, start + k);
    }
  }

  // ---------------------------------------------------------------- computing commands

  /** The in-sync replicas that are alive, in order. */
  function Survivors(isr: seq<int>, alive: set<int>): seq<int>
  {
    if isr == [] then []
    else Survivors(isr[..|isr| - 1], alive) + (if isr[|isr| - 1] in alive then [isr[|isr| - 1]] else [])
  }

  lemma {:induction false} SurvivorsAre(isr: seq<int>, alive: set<int>)
    ensures forall id :: id in Survivors(isr, alive) <==> id in isr && id in alive
    ensures Distinct(isr) ==> Distinct(Survivors(isr, alive))
  {
    if isr != [] {
      var n := |isr| - 1;
      assert isr == isr[..n] + [isr[n]];
      SurvivorsAre(isr[..n], alive);
      if Distinct(isr) {
        var s := Survivors(isr[..n], alive);
        assert isr[n] !in isr[..n];
        forall i | 0 <= i < |s| ensures s[i] != isr[n] {
          assert s[i] in s;
        }
      }
    }
  }

  /** What checkFailover commits for a partition it sees as pm, the nodes in alive being up. */
  predicate FailoverCommits(pm: PartMeta, alive: set<int>, leader: int, isr: seq<int>)
  {
    && !(pm.leader >= 0 && pm.leader in alive)
    && isr == Survivors(pm.isr, alive) && isr != [] && isr[0] != pm.leader && leader == isr[0]
  }

  /** The first of the nodes that is up. */
  predicate FirstAlive(ids: seq<int>, alive: set<int>, i: int)
  {
    0 <= i < |ids| && ids[i] in alive && forall j | 0 <= j < i :: ids[j] !in alive
  }

  lemma {:induction false} SurvivorsFirst(ids: seq<int>, alive: set<int>)
    ensures var s := Survivors(ids, alive);
            if s == [] then forall id | id in ids :: id !in alive
            else exists i :: FirstAlive(ids, alive, i) && s[0] == ids[i]
  {
    if ids != [] {
      var n := |ids| - 1;
      assert ids == ids[..n] + [ids[n]];
      SurvivorsFirst(ids[..n], alive);
      if Survivors(ids[..n], alive) != [] {
        var i :| FirstAlive(ids[..n], alive, i) && Survivors(ids[..n], alive)[0] == ids[..n][i];
        assert FirstAlive(ids, alive, i);
      } else if ids[n] in alive {
        forall j | 0 <= j < n ensures ids[j] !in alive {
          var id := ids[j];
          assert id == ids[..n][j] && id in ids[..n];
        }
        assert FirstAlive(ids, alive, n);
      }
    }
  }

  /** A failover never deposes a leader that is up, and elects the first in-sync node that is. */
  lemma FailoverIs(pm: PartMeta, alive: set<int>, leader: int, isr: seq<int>)
    requires FailoverCommits(pm, alive, leader, isr)
    ensures pm.leader < 0 || pm.leader !in alive
    ensures leader != pm.leader && exists i :: FirstAlive(pm.isr, alive, i) && leader == pm.isr[i]
    ensures forall id :: id in isr <==> id in pm.isr && id in alive
  {
    SurvivorsFirst(pm.isr, alive);
    SurvivorsAre(pm.isr, alive);
  }

  /** checkFailover on one partition. */
  method CheckFailover(pm: PartMeta, alive: set<int>) returns (commit: bool, leader: int, isr: seq<int>)
    ensures commit ==> FailoverCommits(pm, alive, leader, isr)
    ensures !commit ==> forall l, s :: !FailoverCommits(pm, alive, l, s)
    ensures commit <==> && (pm.leader < 0 || pm.leader !in alive)
                        && exists i :: FirstAlive(pm.isr, alive, i) && pm.isr[i] != pm.leader
  {
    SurvivorsFirst(pm.isr, alive);
    commit, leader, isr := false, pm.leader, [];
    if pm.leader >= 0 && pm.leader in alive {
      return;
    }
    for i := 0 to |pm.isr|
      invariant isr == Survivors(pm.isr[..i], alive)
    {
      assert pm.isr[..i + 1][..i] == pm.isr[..i];
      if pm.isr[i] in alive {
        isr := isr + [pm.isr[i]];
      }
    }
    assert pm.isr[..|pm.isr|] == pm.isr;
    if |isr| == 0 || isr[0] == pm.leader {
      return;
    }
    commit, leader := true, isr[0];
  }

  const REPLICA_LAG_MS := 10_000

  datatype Since = Never | At(ms: int)

  /** A replica was heard from within the lag timeout; one never heard from counts for as long
      after this node began to lead. */
  predicate Heard(r: int, lastSeen: map<int, int>, leadSince: Since, now: int)
  {
    if r in lastSeen then now - lastSeen[r] <= REPLICA_LAG_MS
    else leadSince.At? && now - leadSince.ms <= REPLICA_LAG_MS
  }

  function Recent(replicas: seq<int>, self: int, lastSeen: map<int, int>, leadSince: Since, now: int): set<int>
  {
    set r | r in replicas && (r == self || Heard(r, lastSeen, leadSince, now))
  }

  /** The in-sync set maintainPartitionISR wants: this node and every recent replica. */
  method DesiredIsr(replicas: seq<int>, self: int, lastSeen: map<int, int>, leadSince: Since, now: int)
      returns (isr: seq<int>)
    ensures isr == Survivors(replicas, Recent(replicas, self, lastSeen, leadSince, now))
    ensures forall r :: r in isr <==>
              && r in replicas
              && (|| r == self || (r in lastSeen && now - lastSeen[r] <= 10_000)
                  || (r !in lastSeen && leadSince.At? && now - leadSince.ms <= 10_000))
  {
    SurvivorsAre(replicas, Recent(replicas, self, lastSeen, leadSince, now));
    isr := [];
    ghost var recent := Recent(replicas, self, lastSeen, leadSince, now);
    for i := 0 to |replicas|
      invariant isr == Survivors(replicas[..i], recent)
    {
      assert replicas[..i + 1][..i] == replicas[..i];
      var r := replicas[i];
      assert r in recent <==> r == self || Heard(r, lastSeen, leadSince, now);
      if r == self {
        isr := isr + [self];
      } else {
        var inSync := false;
        if r in lastSeen {
          inSync := now - lastSeen[r] <= REPLICA_LAG_MS;
        } else if leadSince.At? {
          inSync := now - leadSince.ms <= REPLICA_LAG_MS;
        }
        if inSync {
          isr := isr + [r];
        }
      }
    }
    assert replicas[..|replicas|] == replicas;
  }

  /** maintainPartitionISR: proposes the desired set when the comparison says it differs. On a
      placed partition it does so exactly when the two sets name different nodes. */
  method MaintainIsr(pm: PartMeta, self: int, lastSeen: map<int, int>, leadSince: Since, now: int)
      returns (propose: bool, isr: seq<int>)
    ensures isr == Survivors(pm.replicas, Recent(pm.replicas, self, lastSeen, leadSince, now))
    ensures Placed(pm) ==> (propose <==> Ids(isr) != Ids(pm.isr))
    ensures !propose ==> Ids(pm.isr) <= Ids(isr)
  {
    isr := DesiredIsr(pm.replicas, self, lastSeen, leadSince, now);
    var same := SameNodeSet(isr, pm.isr);
    propose := !same;
    SurvivorsAre(pm.replicas, Recent(pm.replicas, self, lastSeen, leadSince, now));
    if Placed(pm) {
      SameNodeSetExact(isr, pm.isr);
    }
  }

  function Ids(a: seq<int>): set<int>
  {
    set x | x in a
  }

  /** sameNodeSet: equal lengths, and everything in b is in a. */
  method SameNodeSet(a: seq<int>, b: seq<int>) returns (same: bool)
    ensures same <==> |a| == |b| && Within(b, a)
  {
    if |a| != |b| {
      return false;
    }
    var seen: set<int> := {};
    for i := 0 to |a|
      invariant seen == Ids(a[..i])
    {
      assert a[..i + 1] == a[..i] + [a[i]];
      seen := seen + {a[i]};
    }
    assert a[..|a|] == a;
    for i := 0 to |b|
      invariant Within(b[..i], a)
    {
      if b[i] !in seen {
        assert !Within(b, a);
        return false;
      }
      assert b[..i + 1] == b[..i] + [b[i]];
    }
    assert b[..|b|] == b;
    return true;
  }

  lemma {:induction false} DistinctCount(a: seq<int>)
    ensures |Ids(a)| <= |a| && (Distinct(a) ==> |Ids(a)| == |a|)
  {
    if a != [] {
      var n := |a| - 1;
      assert a == a[..n] + [a[n]] && Ids(a) == Ids(a[..n]) + {a[n]};
      DistinctCount(a[..n]);
      if Distinct(a) {
        assert a[n] !in a[..n];
      }
    }
  }

  lemma SubsetEqual(s: set<int>, t: set<int>)
    requires s <= t && |t| <= |s|
    ensures s == t
  {
    assert t == s + (t - s);
  }

  /** On lists without repetition, which both of its arguments always are, that comparison says
      exactly whether they name the same nodes. */
  lemma SameNodeSetExact(a: seq<int>, b: seq<int>)
    requires Distinct(a) && Distinct(b)
    ensures |a| == |b| && Within(b, a) <==> Ids(a) == Ids(b)
  {
    DistinctCount(a);
    DistinctCount(b);
    if |a| == |b| && Within(b, a) {
      SubsetEqual(Ids(b), Ids(a));
    }
    if Ids(a) == Ids(b) {
      forall i | 0 <= i < |b| ensures b[i] in a {
        assert b[i] in Ids(b);
      }
    }
  }

  /** On any lists a yes is right if and only if the second names as many nodes as the first. */
  lemma SameNodeSetRepeats(a: seq<int>, b: seq<int>)
    requires |a| == |b| && Within(b, a)
    ensures Ids(a) == Ids(b) <==> |Ids(a)| == |Ids(b)|
  {
    assert Ids(b) <= Ids(a);
    if |Ids(a)| == |Ids(b)| {
      SubsetEqual(Ids(b), Ids(a));
    }
  }

  // ---------------------------------------------------------------- logs of stale commands

  predicate SeedOk(rs: seq<int>)
  {
    rs != [] && Distinct(rs)
  }

  /** Partition p of the topic, as the state after some prefix m of the log shows it, is pm. */
  predicate Seen(log: seq<Command>, m: int, topic: string, p: int, pm: PartMeta)
  {
    0 <= m <= |log| && var s := StateAt(log, m); Has(s, topic, p) && Part(s, topic, p) == pm
  }

  /** Command n of the log could have been proposed: topics and partitions are created on
      distinct brokers; a leader or ISR change was computed from the state at any earlier point
      of the log, with any nodes alive or recent. It may come late, and more than once. */
  ghost predicate Proposed(log: seq<Command>, n: nat)
    requires n < |log|
  {
    match log[n]
    case CreateTopic(_, replicas) => forall i | 0 <= i < |replicas| :: SeedOk(replicas[i])
    case CreatePartitions(_, replicas) => forall i | 0 <= i < |replicas| :: SeedOk(replicas[i])
    case ChangeLeader(topic, p, leader, isr) =>
      exists m, pm, alive {:trigger Seen(log, m, topic, p, pm), FailoverCommits(pm, alive, leader, isr)} ::
        m <= n && Seen(log, m, topic, p, pm) && FailoverCommits(pm, alive, leader, isr)
    case ChangeIsr(topic, p, isr) =>
      exists m, pm, recent {:trigger Seen(log, m, topic, p, pm), Survivors(pm.replicas, recent)} ::
        m <= n && Seen(log, m, topic, p, pm) && pm.leader in recent && isr == Survivors(pm.replicas, recent)
    case Unknown => true
  }

  ghost predicate AllProposed(log: seq<Command>)
  {
    forall n {:trigger Proposed(log, n)} | 0 <= n < |log| :: Proposed(log, n)
  }

  predicate Placed(pm: PartMeta)
  {
    && Distinct(pm.replicas) && pm.leader in pm.replicas
    && pm.isr != [] && Distinct(pm.isr) && Within(pm.isr, pm.replicas)
  }

  ghost predicate AllPlaced(s: Topics)
  {
    forall topic, p {:trigger Has(s, topic, p)} | Has(s, topic, p) :: Placed(Part(s, topic, p))
  }

  /** How one partition may differ between an earlier and a later state: same replicas, and the
      leader changes only with the epoch, which grows. */
  predicate Later(a: PartMeta, b: PartMeta)
  {
    b.replicas == a.replicas && (b.epoch > a.epoch || (b.epoch == a.epoch && b.leader == a.leader))
  }

  /** One command: partitions stay, and move on as Later allows while the epoch can be counted. */
  lemma StepLater(s: Topics, c: Command, topic: string, p: int)
    requires Has(s, topic, p) && Part(s, topic, p).epoch < 0x7FFF_FFFF
    ensures var t := Apply(s, c);
            && Has(t, topic, p) && |s[topic]| <= |t[topic]| && Later(Part(s, topic, p), Part(t, topic, p))
            && Part(t, topic, p).epoch <= Part(s, topic, p).epoch + 1
  {
  }

  lemma NewPart(s: Topics, c: Command, topic: string, p: int)
    requires !Has(s, topic, p) && Has(Apply(s, c), topic, p)
    ensures Part(Apply(s, c), topic, p).epoch == 0
    ensures c.CreateTopic? || c.CreatePartitions?
    ensures exists i :: 0 <= i < |c.replicas| && Part(Apply(s, c), topic, p) == Seeded(c.replicas[i])
  {
    var i := if c.CreateTopic? then p else p - |s[topic]|;
    SeededAt(c.replicas, i);
  }

  lemma {:induction false} EpochBound(log: seq<Command>, n: nat, topic: string, p: int)
    requires n <= |log| < 0x8000_0000 && Has(StateAt(log, n), topic, p)
    ensures 0 <= Part(StateAt(log, n), topic, p).epoch <= n
  {
    var s := StateAt(log, n - 1);
    if Has(s, topic, p) {
      EpochBound(log, n - 1, topic, p);
      StepLater(s, log[n - 1], topic, p);
    } else {
      NewPart(s, log[n - 1], topic, p);
    }
  }

  /** Two nodes that have applied different prefixes of one log: the longer one has every
      partition the shorter one has, at least as many per topic, with the same replicas and an
      epoch at least as high; and if both report the same epoch they report the same leader. */
  lemma {:induction false} PrefixesAgree(log: seq<Command>, m: nat, n: nat, topic: string, p: int)
    requires m <= n <= |log| < 0x8000_0000 && Has(StateAt(log, m), topic, p)
    ensures var s, t := StateAt(log, m), StateAt(log, n);
            && Has(t, topic, p) && |s[topic]| <= |t[topic]| && Later(Part(s, topic, p), Part(t, topic, p))
    decreases n
  {
    if m < n {
      PrefixesAgree(log, m, n - 1, topic, p);
      EpochBound(log, n - 1, topic, p);
      StepLater(StateAt(log, n - 1), log[n - 1], topic, p);
    }
  }

  lemma SameEpochSameLeader(log: seq<Command>, m: nat, n: nat, topic: string, p: int)
    requires m <= |log| && n <= |log| < 0x8000_0000
    requires Has(StateAt(log, m), topic, p) && Has(StateAt(log, n), topic, p)
    requires Part(StateAt(log, m), topic, p).epoch == Part(StateAt(log, n), topic, p).epoch
    ensures Part(StateAt(log, m), topic, p).leader == Part(StateAt(log, n), topic, p).leader
  {
    PrefixesAgree(log, if m <= n then m else n, if m <= n then n else m, topic, p);
  }

  lemma SurvivorsWithin(pm: PartMeta, alive: set<int>)
    requires Placed(pm)
    ensures var s := Survivors(pm.isr, alive); Distinct(s) && Within(s, pm.replicas)
    ensures var s := Survivors(pm.replicas, alive); Distinct(s) && Within(s, pm.replicas)
    ensures pm.leader in alive ==> Survivors(pm.replicas, alive) != []
  {
    SurvivorsAre(pm.isr, alive);
    SurvivorsAre(pm.replicas, alive);
    var s, r := Survivors(pm.isr, alive), Survivors(pm.replicas, alive);
    forall i | 0 <= i < |s| ensures s[i] in pm.replicas {
      var id := s[i];
      assert id in Survivors(pm.isr, alive);
      var j :| 0 <= j < |pm.isr| && pm.isr[j] == id;
    }
    forall i | 0 <= i < |r| ensures r[i] in pm.replicas {
      var id := r[i];
      assert id in Survivors(pm.replicas, alive);
    }
    if pm.leader in alive {
      assert pm.leader in r;
    }
  }

  /** A leader or ISR change computed from a placed partition places it again, even when applied
      to a later state. */
  lemma StaleChangeOk(log: seq<Command>, n: nat, topic: string, p: int)
    requires n < |log| < 0x8000_0000 && Proposed(log, n) && (log[n].ChangeLeader? || log[n].ChangeIsr?)
    requires log[n].topic == topic && log[n].p == p && Has(StateAt(log, n), topic, p)
    requires forall m | 0 <= m <= n :: AllPlaced(StateAt(log, m))
    ensures Placed(Part(Apply(StateAt(log, n), log[n]), topic, p))
  {
    var now := Part(StateAt(log, n), topic, p);
    assert Placed(now);
    if log[n].ChangeLeader? {
      var m, pm, alive :| m <= n && Seen(log, m, topic, p, pm) && FailoverCommits(pm, alive, log[n].leader, log[n].isr);
      assert Has(StateAt(log, m), topic, p) && Placed(pm);
      PrefixesAgree(log, m, n, topic, p);
      SurvivorsWithin(pm, alive);
    } else {
      var m, pm, recent :| m <= n && Seen(log, m, topic, p, pm) && pm.leader in recent
                           && log[n].isr == Survivors(pm.replicas, recent);
      assert Has(StateAt(log, m), topic, p) && Placed(pm);
      PrefixesAgree(log, m, n, topic, p);
      SurvivorsWithin(pm, recent);
    }
  }

  lemma SeededPlaced(rs: seq<int>)
    requires SeedOk(rs)
    ensures Placed(Seeded(rs))
  {
  }

  /** The placement theorem: after every prefix of a log of commands each computed from any
      earlier state, every partition's leader is one of its replicas and its in-sync set is a
      non-empty subset of them without repetition. */
  lemma {:induction false} PlacementHolds(log: seq<Command>, n: nat)
    requires n <= |log| < 0x8000_0000 && AllProposed(log)
    ensures forall m | 0 <= m <= n :: AllPlaced(StateAt(log, m))
  {
    if n > 0 {
      PlacementHolds(log, n - 1);
      var s, c, t := StateAt(log, n - 1), log[n - 1], StateAt(log, n);
      assert Proposed(log, n - 1) && AllPlaced(s);
      forall topic, p | Has(t, topic, p) ensures Placed(Part(t, topic, p)) {
        PartPlaced(log, n - 1, topic, p);
      }
    }
  }

  lemma PartPlaced(log: seq<Command>, n: nat, topic: string, p: int)
    requires n < |log| < 0x8000_0000 && Proposed(log, n)
    requires forall m | 0 <= m <= n :: AllPlaced(StateAt(log, m))
    requires Has(Apply(StateAt(log, n), log[n]), topic, p)
    ensures Placed(Part(Apply(StateAt(log, n), log[n]), topic, p))
  {
    var s, c := StateAt(log, n), log[n];
    assert AllPlaced(s);
    if !Has(s, topic, p) {
      NewPart(s, c, topic, p);
      var i :| 0 <= i < |c.replicas| && Part(Apply(s, c), topic, p) == Seeded(c.replicas[i]);
      assert SeedOk(c.replicas[i]);
      SeededPlaced(c.replicas[i]);
    } else if (c.ChangeLeader? || c.ChangeIsr?) && c.topic == topic && c.p == p {
      StaleChangeOk(log, n, topic, p);
    } else {
      assert Part(Apply(s, c), topic, p) == Part(s, topic, p);
    }
  }

  // ---------------------------------------------------------------- is the leader in sync?

  /** What an ISR change leaves behind when it is applied, m being where it was computed: the
      leader of that moment is in sync if and only if it was among the recent nodes; and it is if
      there was no election in between. */
  lemma IsrChangeKeepsLeaderIff(log: seq<Command>, n: nat, topic: string, p: int, m: nat, pm: PartMeta,
                                recent: set<int>)
    requires n < |log| < 0x8000_0000 && AllProposed(log) && m <= n && Seen(log, m, topic, p, pm)
    requires pm.leader in recent && log[n] == ChangeIsr(topic, p, Survivors(pm.replicas, recent))
    ensures Has(StateAt(log, n), topic, p) && Has(StateAt(log, n + 1), topic, p)
    ensures var now, next := Part(StateAt(log, n), topic, p), Part(StateAt(log, n + 1), topic, p);
            && next.leader == now.leader
            && (next.leader in next.isr <==> now.leader in recent)
            && (now.epoch == pm.epoch ==> next.leader in next.isr)
  {
    PlacementHolds(log, n);
    PrefixesAgree(log, m, n, topic, p);
    var now := Part(StateAt(log, n), topic, p);
    assert AllPlaced(StateAt(log, n)) && Placed(now);
    SurvivorsAre(pm.replicas, recent);
  }

  predicate Led(pm: PartMeta)
  {
    pm.leader in pm.isr
  }

  ghost predicate AllLed(s: Topics)
  {
    forall topic, p {:trigger Has(s, topic, p)} | Has(s, topic, p) :: Led(Part(s, topic, p))
  }

  ghost predicate LedAt(log: seq<Command>, n: nat)
    requires n <= |log|
  {
    AllLed(StateAt(log, n))
  }

  /** Command n, if it is an ISR change, names the leader of the state it is applied to. */
  predicate NamesLeader(log: seq<Command>, n: nat)
    requires n < |log|
  {
    log[n].ChangeIsr? && Has(StateAt(log, n), log[n].topic, log[n].p) ==>
      Part(StateAt(log, n), log[n].topic, log[n].p).leader in log[n].isr
  }

  /** Command n, if it is an ISR change, was computed in the epoch in which it is applied. */
  ghost predicate SameEpoch(log: seq<Command>, n: nat)
    requires n < |log|
  {
    log[n].ChangeIsr? ==>
      exists m: nat, pm, recent {:trigger Seen(log, m, log[n].topic, log[n].p, pm), Survivors(pm.replicas, recent)} ::
        && m <= n && Seen(log, m, log[n].topic, log[n].p, pm) && pm.leader in recent
        && log[n].isr == Survivors(pm.replicas, recent)
        && Has(StateAt(log, n), log[n].topic, log[n].p)
        && Part(StateAt(log, n), log[n].topic, log[n].p).epoch == pm.epoch
  }

  lemma SameEpochNamesLeader(log: seq<Command>, n: nat)
    requires n < |log| < 0x8000_0000 && AllProposed(log) && SameEpoch(log, n)
    ensures NamesLeader(log, n)
  {
    if log[n].ChangeIsr? && Has(StateAt(log, n), log[n].topic, log[n].p) {
      var topic, p := log[n].topic, log[n].p;
      var m: nat, pm, recent :| m <= n && Seen(log, m, topic, p, pm) && pm.leader in recent
                                && log[n].isr == Survivors(pm.replicas, recent)
                                && Part(StateAt(log, n), topic, p).epoch == pm.epoch;
      IsrChangeKeepsLeaderIff(log, n, topic, p, m, pm, recent);
      assert Part(StateAt(log, n + 1), topic, p).isr == log[n].isr;
    }
  }

  lemma LedStep(log: seq<Command>, n: nat)
    requires n < |log| && Proposed(log, n) && AllLed(StateAt(log, n))
    ensures AllLed(StateAt(log, n + 1)) <==> NamesLeader(log, n)
  {
    var s, c, t := StateAt(log, n), log[n], StateAt(log, n + 1);
    assert t == Apply(s, c);
    if NamesLeader(log, n) {
      forall topic, p | Has(t, topic, p) ensures Led(Part(t, topic, p)) {
        LedPart(log, n, topic, p);
      }
    } else {
      assert Has(t, c.topic, c.p) && Part(t, c.topic, c.p) == Part(s, c.topic, c.p).(isr := c.isr);
    }
  }

  lemma LedPart(log: seq<Command>, n: nat, topic: string, p: int)
    requires n < |log| && Proposed(log, n) && AllLed(StateAt(log, n)) && NamesLeader(log, n)
    requires Has(Apply(StateAt(log, n), log[n]), topic, p)
    ensures Led(Part(Apply(StateAt(log, n), log[n]), topic, p))
  {
    var s, c := StateAt(log, n), log[n];
    if !Has(s, topic, p) {
      NewPart(s, c, topic, p);
      var i :| 0 <= i < |c.replicas| && Part(Apply(s, c), topic, p) == Seeded(c.replicas[i]);
      assert SeedOk(c.replicas[i]);
    } else {
      assert Led(Part(s, topic, p));
    }
  }

  /** The exact condition: every partition's leader is in sync after every prefix of the log if
      and only if every ISR change names the leader of the state it is applied to. */
  lemma {:induction false} LeaderInSyncIff(log: seq<Command>, n: nat)
    requires n <= |log| && AllProposed(log)
    ensures (forall m | 0 <= m <= n :: LedAt(log, m)) <==> (forall i | 0 <= i < n :: NamesLeader(log, i))
  {
    if n > 0 {
      LeaderInSyncIff(log, n - 1);
      assert Proposed(log, n - 1);
      if LedAt(log, n - 1) {
        LedStep(log, n - 1);
        assert LedAt(log, n) <==> NamesLeader(log, n - 1);
      }
    }
  }

  /** So it holds after every prefix of a log whose ISR changes were all proposed in the epoch
      they are applied in. */
  lemma LeaderInSync(log: seq<Command>, n: nat, topic: string, p: int)
    requires n <= |log| < 0x8000_0000 && AllProposed(log) && Has(StateAt(log, n), topic, p)
    requires forall i {:trigger SameEpoch(log, i)} | 0 <= i < n :: SameEpoch(log, i)
    ensures Part(StateAt(log, n), topic, p).leader in Part(StateAt(log, n), topic, p).isr
  {
    forall i | 0 <= i < n ensures NamesLeader(log, i) {
      SameEpochNamesLeader(log, i);
    }
    LeaderInSyncIff(log, n);
    assert LedAt(log, n) && Led(Part(StateAt(log, n), topic, p));
  }

  /** And it can fail. Take a topic on nodes a and b, led by a; a proposes the ISR {a}, but before
      that is applied a is taken for dead and b is elected. */
  function StaleLog(topic: string, a: int, b: int): seq<Command>
  {
    [CreateTopic(topic, [[a, b]]), ChangeLeader(topic, 0, b, [b]), ChangeIsr(topic, 0, [a])]
  }

  function OnePart(topic: string, pm: PartMeta): Topics
  {
    map[topic := [pm]]
  }

  lemma OnePartSteps(topic: string, pm: PartMeta, leader: int, isr: seq<int>)
    ensures Apply(OnePart(topic, pm), ChangeLeader(topic, 0, leader, isr))
            == OnePart(topic, pm.(leader := leader, isr := isr, epoch := Bump(pm.epoch)))
    ensures Apply(OnePart(topic, pm), ChangeIsr(topic, 0, isr)) == OnePart(topic, pm.(isr := isr))
    ensures Has(OnePart(topic, pm), topic, 0) && Part(OnePart(topic, pm), topic, 0) == pm
  {
    var one := [pm];
    assert one[0 := pm.(isr := isr)] == [pm.(isr := isr)];
    var led := pm.(leader := leader, isr := isr, epoch := Bump(pm.epoch));
    assert one[0 := led] == [led];
  }

  lemma StaleStates(topic: string, a: int, b: int)
    ensures var log := StaleLog(topic, a, b);
            && StateAt(log, 1) == OnePart(topic, PartMeta([a, b], a, [a, b], 0))
            && StateAt(log, 2) == OnePart(topic, PartMeta([a, b], b, [b], 1))
            && StateAt(log, 3) == OnePart(topic, PartMeta([a, b], b, [a], 1))
  {
    var log := StaleLog(topic, a, b);
    SeededAt([[a, b]], 0);
    assert SeededAll([[a, b]]) == [Seeded([a, b])];
    assert StateAt(log, 0) == map[];
    OnePartSteps(topic, PartMeta([a, b], a, [a, b], 0), b, [b]);
    OnePartSteps(topic, PartMeta([a, b], b, [b], 1), b, [a]);
    assert StateAt(log, 1) == Apply(StateAt(log, 0), log[0]);
    assert StateAt(log, 2) == Apply(StateAt(log, 1), log[1]);
    assert StateAt(log, 3) == Apply(StateAt(log, 2), log[2]);
  }

  lemma TwoSurvivors(a: int, b: int)
    requires a != b
    ensures Survivors([a, b], {b}) == [b] && Survivors([a, b], {a}) == [a]
  {
    assert [a, b][..1] == [a] && [a][..0] == [];
    assert Survivors([a], {b}) == [] && Survivors([a], {a}) == [a];
  }

  lemma StaleIsrDropsLeader(topic: string, a: int, b: int)
    requires a != b
    ensures var log := StaleLog(topic, a, b);
            && AllProposed(log) && Has(StateAt(log, 3), topic, 0)
            && Part(StateAt(log, 3), topic, 0).leader !in Part(StateAt(log, 3), topic, 0).isr
  {
    var log, pm := StaleLog(topic, a, b), PartMeta([a, b], a, [a, b], 0);
    StaleStates(topic, a, b);
    TwoSurvivors(a, b);
    assert Seen(log, 1, topic, 0, pm) && FailoverCommits(pm, {b}, b, [b]);
    assert pm.leader in {a} && log[2].isr == Survivors(pm.replicas, {a});
    assert Proposed(log, 0) && Proposed(log, 1) && Proposed(log, 2);
  }
}
