/** One consumer group at its coordinator: members join, the leader distributes assignments,
    followers wait for theirs, and every change of membership opens a new generation that is
    meant to fence off the old one. */
module Coordinator {
  import opened Bytes
  import Metadata

  datatype Protocol = Protocol(name: string, metadata: seq<byte>)

  datatype Member = Member(protocols: seq<Protocol>, assignment: seq<byte>, lastHeartbeat: int, sessionTimeout: int,
                           synced: bool)

  datatype State = Empty | AwaitingSync | Stable

  datatype Group = Group(generation: int, leader: string, state: State, members: map<string, Member>, protocol: string)

  const DEFAULT_SESSION := 30_000
  const MAX_GENERATION := 0x7FFF_FFFF

  // ---------------------------------------------------------------- the operations

  function Unsynced(ms: map<string, Member>): (out: map<string, Member>)
    ensures out.Keys == ms.Keys
  {
    map id | id in ms :: ms[id].(synced := false)
  }

  /** The member a join adds or refreshes. */
  function Refreshed(ms: map<string, Member>, id: string, protocols: seq<Protocol>, now: int, timeoutMs: int): Member
  {
    var assignment, synced := if id in ms then ms[id].assignment else [], if id in ms then ms[id].synced else false;
    Member(protocols, assignment, now, if timeoutMs <= 0 then DEFAULT_SESSION else timeoutMs, synced)
  }

  /** Join by the given member, isNew when the coordinator made up its id. */
  function Joined(g: Group, id: string, isNew: bool, protocols: seq<Protocol>, now: int, timeoutMs: int,
                  protocol: string): Group
  {
    var ms := g.members[id := Refreshed(g.members, id, protocols, now, timeoutMs)];
    var leader := if g.leader !in ms || g.leader == "" then id else g.leader;
    if isNew || id !in g.members || g.state != AwaitingSync then
      Group(Metadata.Bump(g.generation), leader, AwaitingSync, Unsynced(ms), protocol)
    else Group(g.generation, leader, g.state, ms, protocol)
  }

  /** chooseProtocol: the leader's first, else any member's first, else none. */
  predicate Chosen(ms: map<string, Member>, leader: string, name: string)
  {
    if leader in ms && ms[leader].protocols != [] then name == ms[leader].protocols[0].name
    else if exists id | id in ms :: ms[id].protocols != [] then
      exists id | id in ms :: ms[id].protocols != [] && name == ms[id].protocols[0].name
    else name == ""
  }

  function MetadataFor(ps: seq<Protocol>, name: string): seq<byte>
  {
    if ps == [] then [] else FirstNamed(ps, name, ps[0].metadata)
  }

  function FirstNamed(ps: seq<Protocol>, name: string, fallback: seq<byte>): seq<byte>
  {
    if ps == [] then fallback else if ps[0].name == name then ps[0].metadata else FirstNamed(ps[1..], name, fallback)
  }

  /** The first protocol of that name, else the first, else nothing. */
  lemma {:induction false} FirstNamedIs(ps: seq<Protocol>, name: string, fallback: seq<byte>)
    ensures var m := FirstNamed(ps, name, fallback);
            || (exists i | 0 <= i < |ps| ::
                  ps[i].name == name && m == ps[i].metadata && forall j | 0 <= j < i :: ps[j].name != name)
            || (m == fallback && forall i | 0 <= i < |ps| :: ps[i].name != name)
  {
    if ps != [] && ps[0].name != name {
      FirstNamedIs(ps[1..], name, fallback);
      if i :| 0 <= i < |ps[1..]| && ps[1..][i].name == name && FirstNamed(ps, name, fallback) == ps[1..][i].metadata
              && forall j | 0 <= j < i :: ps[1..][j].name != name
      {
        assert ps[i + 1] == ps[1..][i];
        forall j | 0 <= j < i + 1 ensures ps[j].name != name {
          assert j > 0 ==> ps[j] == ps[1..][j - 1];
        }
      } else {
        forall i | 0 <= i < |ps| ensures ps[i].name != name {
          assert i > 0 ==> ps[i] == ps[1..][i - 1];
        }
      }
    }
  }

  datatype Listed = Listed(id: string, metadata: seq<byte>)

  /** The list handed to the leader names every member once. */
  ghost predicate Lists(out: seq<Listed>, ms: map<string, Member>, protocol: string)
  {
    && (forall i | 0 <= i < |out| ::
          out[i].id in ms && out[i].metadata == MetadataFor(ms[out[i].id].protocols, protocol))
    && (forall id | id in ms :: exists i | 0 <= i < |out| :: out[i].id == id)
    && (forall i, j | 0 <= i < j < |out| :: out[i].id != out[j].id)
  }

  function Assigned(ms: map<string, Member>, assignments: map<string, seq<byte>>): (out: map<string, Member>)
    ensures out.Keys == ms.Keys
  {
    map id | id in ms :: if id in assignments then ms[id].(assignment := assignments[id]) else ms[id]
  }

  /** The end of every successful Sync. */
  function Synced(g: Group, id: string, now: int): Group
    requires id in g.members
  {
    g.(members := g.members[id := g.members[id].(synced := true, lastHeartbeat := now)])
  }

  /** Sync by the leader. */
  function LeaderSynced(g: Group, assignments: map<string, seq<byte>>, now: int): Group
    requires g.leader in g.members
  {
    Synced(g.(members := Assigned(g.members, assignments), state := Stable), g.leader, now)
  }

  function Beaten(g: Group, id: string, now: int): Group
    requires id in g.members
  {
    g.(members := g.members[id := g.members[id].(lastHeartbeat := now)])
  }

  /** rebalanceLocked once the members in gone have been removed; pick is the leader chosen if
      the old one is among them. */
  function Rebalanced(g: Group, gone: set<string>, pick: string): Group
  {
    var ms := g.members - gone;
    if ms == map[] then Group(Metadata.Bump(g.generation), "", Empty, ms, g.protocol)
    else Group(Metadata.Bump(g.generation), if g.leader in ms then g.leader else pick, AwaitingSync, Unsynced(ms),
               g.protocol)
  }

  predicate CanPick(g: Group, gone: set<string>, pick: string)
  {
    var ms := g.members - gone;
    ms == map[] || g.leader in ms || pick in ms
  }

  function Dead(ms: map<string, Member>, now: int): set<string>
  {
    set id | id in ms && now - ms[id].lastHeartbeat > ms[id].sessionTimeout
  }

  // ---------------------------------------------------------------- runs

  datatype Step =
    | DoJoin(id: string, isNew: bool, protocols: seq<Protocol>, now: int, timeoutMs: int, protocol: string)
    | DoLeaderSync(assignments: map<string, seq<byte>>, now: int)
    | DoFollowerSync(id: string, now: int)
    | DoHeartbeat(id: string, now: int)
    | DoRemove(gone: set<string>, pick: string)

  predicate Enabled(g: Group, s: Step)
  {
    match s
    case DoJoin(id, _, _, _, _, _) => id != ""
    case DoLeaderSync(_, _) => g.leader in g.members
    case DoFollowerSync(id, _) => id in g.members && id != g.leader
    case DoHeartbeat(id, _) => id in g.members
    case DoRemove(gone, pick) => gone != {} && gone <= g.members.Keys && CanPick(g, gone, pick)
  }

  function Do(g: Group, s: Step): Group
    requires Enabled(g, s)
  {
    match s
    case DoJoin(id, isNew, protocols, now, timeoutMs, protocol) =>
      Joined(g, id, isNew, protocols, now, timeoutMs, protocol)
    case DoLeaderSync(assignments, now) => LeaderSynced(g, assignments, now)
    case DoFollowerSync(id, now) => Synced(g, id, now)
    case DoHeartbeat(id, now) => Beaten(g, id, now)
    case DoRemove(gone, pick) => Rebalanced(g, gone, pick)
  }

  /** The group is empty exactly when it has no members, and otherwise a member leads it. */
  predicate GroupOk(g: Group)
  {
    && (g.state == Empty <==> g.members == map[]) && "" !in g.members
    && (if g.members == map[] then g.leader == "" else g.leader in g.members)
  }

  /** A step opens the next generation, in which nobody has an assignment yet, or stays in this
      one with its members, its leader and, once it is stable, its stability. */
  lemma StepOk(g: Group, s: Step)
    requires GroupOk(g) && Enabled(g, s) && g.generation < MAX_GENERATION
    ensures var h := Do(g, s);
            && GroupOk(h)
            && (|| (h.generation == g.generation + 1 && h.state != Stable)
                || (&& h.generation == g.generation && h.members.Keys == g.members.Keys && h.leader == g.leader
                    && (h.state == Stable <==> g.state == Stable || s.DoLeaderSync?)))
  {
    var h := Do(g, s);
    match s
    case DoJoin(id, isNew, protocols, now, timeoutMs, protocol) =>
      assert id in h.members;
      if h.generation == g.generation {
        assert h.members.Keys == g.members.Keys;
      }
    case DoLeaderSync(assignments, now) =>
      assert h.members.Keys == g.members.Keys;
    case DoFollowerSync(id, now) =>
    case DoHeartbeat(id, now) =>
    case DoRemove(gone, pick) =>
  }

  // ---------------------------------------------------------------- what each step does

  /** The step opens a new generation: a join by a new member or to a group that is not waiting for
      its leader, or a removal. */
  predicate Opens(g: Group, s: Step)
  {
    match s
    case DoJoin(id, isNew, _, _, _, _) => isNew || id !in g.members || g.state != AwaitingSync
    case DoRemove(_, _) => true
    case _ => false
  }

  /** The group after any step, field by field: who is in it, which generation, state and leader. */
  lemma StepIs(g: Group, s: Step)
    requires GroupOk(g) && Enabled(g, s) && g.generation < MAX_GENERATION
    ensures var h := Do(g, s);
            && h.generation == (if Opens(g, s) then g.generation + 1 else g.generation)
            && (forall id :: id in h.members <==> (id in g.members || (s.DoJoin? && id == s.id))
                                                  && !(s.DoRemove? && id in s.gone))
            && h.state == (if s.DoLeaderSync? then Stable else if !Opens(g, s) then g.state
                           else if h.members == map[] then Empty else AwaitingSync)
            && (g.leader in h.members ==> h.leader == g.leader)
            && (h.members != map[] ==> h.leader in h.members)
            && h.protocol == (if s.DoJoin? then s.protocol else g.protocol)
  {
    StepOk(g, s);
  }

  /** The step hears from member id at this time. */
  predicate Hears(g: Group, s: Step, id: string)
  {
    match s
    case DoJoin(j, _, _, _, _, _) => j == id
    case DoLeaderSync(_, _) => g.leader == id
    case DoFollowerSync(j, _) => j == id
    case DoHeartbeat(j, _) => j == id
    case DoRemove(_, _) => false
  }

  predicate Syncs(s: Step)
  {
    s.DoLeaderSync? || s.DoFollowerSync?
  }

  /** A member after any step, field by field; its assignment is StepAssignment's. */
  lemma StepMember(g: Group, s: Step, id: string)
    requires Enabled(g, s) && id in Do(g, s).members
    ensures var m, joins := Do(g, s).members[id], s.DoJoin? && s.id == id;
            && (joins || id in g.members)
            && m.protocols == (if joins then s.protocols else g.members[id].protocols)
            && m.sessionTimeout == (if !joins then g.members[id].sessionTimeout
                                    else if s.timeoutMs <= 0 then 30_000 else s.timeoutMs)
            && m.lastHeartbeat == (if Hears(g, s, id) then s.now else g.members[id].lastHeartbeat)
            && m.synced == (!Opens(g, s) && (g.members[id].synced || (Hears(g, s, id) && Syncs(s))))
  {
  }

  /** Who is reaped: exactly the members silent for longer than their session timeout. So a member
      a step hears from survives every reap within its timeout. */
  lemma HeardSurvives(g: Group, s: Step, id: string, later: int)
    requires Enabled(g, s) && id in Do(g, s).members
    ensures var m := Do(g, s).members[id];
            && (id in Dead(Do(g, s).members, later) <==> later - m.lastHeartbeat > m.sessionTimeout)
            && (Hears(g, s, id) && later - s.now <= m.sessionTimeout ==> id !in Dead(Do(g, s).members, later))
  {
    StepMember(g, s, id);
  }

  ghost predicate Run(states: seq<Group>, steps: seq<Step>)
  {
    && |states| == |steps| + 1 && |steps| < MAX_GENERATION
    && states[0] == Group(0, "", Empty, map[], "")
    && forall i {:trigger Enabled(states[i], steps[i])} | 0 <= i < |steps| ::
         Enabled(states[i], steps[i]) && states[i + 1] == Do(states[i], steps[i])
  }

  lemma {:induction false} RunOk(states: seq<Group>, steps: seq<Step>, n: nat)
    requires Run(states, steps) && n < |states|
    ensures GroupOk(states[n]) && 0 <= states[n].generation <= n
  {
    if n > 0 {
      RunOk(states, steps, n - 1);
      assert Enabled(states[n - 1], steps[n - 1]);
      StepOk(states[n - 1], steps[n - 1]);
    }
  }

  /** Over every run nobody leaves the group unasked: a member of one state is missing from the next
      if and only if the step between them is a removal that names it. */
  lemma MissingIff(states: seq<Group>, steps: seq<Step>, n: nat, id: string)
    requires Run(states, steps) && n < |steps| && id in states[n].members
    ensures id !in states[n + 1].members <==> steps[n].DoRemove? && id in steps[n].gone
  {
    RunOk(states, steps, n);
    assert Enabled(states[n], steps[n]);
    StepIs(states[n], steps[n]);
  }

  /** Generation fencing: over every run generations never decrease, and two states of the same
      generation have the same members and the same leader; once stable they stay stable. */
  lemma {:induction false} Fencing(states: seq<Group>, steps: seq<Step>, m: nat, n: nat)
    requires Run(states, steps) && m <= n < |states|
    ensures var a, b := states[m], states[n];
            && a.generation <= b.generation
            && (a.generation == b.generation ==>
                  && a.members.Keys == b.members.Keys && a.leader == b.leader
                  && (a.state == Stable ==> b.state == Stable))
    decreases n
  {
    if m < n {
      Fencing(states, steps, m, n - 1);
      RunOk(states, steps, n - 1);
      assert Enabled(states[n - 1], steps[n - 1]);
      StepOk(states[n - 1], steps[n - 1]);
    }
  }

  /** The member list given to the leader by a join of generation g names exactly the members the
      group has at every moment of generation g. */
  lemma ListedThroughout(states: seq<Group>, steps: seq<Step>, m: nat, n: nat, out: seq<Listed>)
    requires Run(states, steps) && m < |states| && n < |states|
    requires Lists(out, states[m].members, states[m].protocol)
    requires states[m].generation == states[n].generation
    ensures forall id :: id in states[n].members <==> exists i :: 0 <= i < |out| && out[i].id == id
  {
    Fencing(states, steps, if m <= n then m else n, if m <= n then n else m);
    forall id ensures id in states[n].members <==> exists i :: 0 <= i < |out| && out[i].id == id {
      assert id in states[n].members <==> id in states[m].members;
    }
  }

  /** A follower that started to wait in generation g and is woken while the group still is in
      generation g is still one of its members. */
  lemma WaiterIsMember(states: seq<Group>, steps: seq<Step>, m: nat, n: nat, id: string)
    requires Run(states, steps) && m <= n < |states| && id in states[m].members
    requires states[n].generation == states[m].generation
    ensures id in states[n].members
  {
    Fencing(states, steps, m, n);
  }

  // ---------------------------------------------------------------- whose assignment a Sync returns

  /** Step i is an accepted Sync of the leader that names member id. */
  predicate Gives(states: seq<Group>, steps: seq<Step>, i: nat, id: string)
    requires i < |steps| && |states| == |steps| + 1
  {
    steps[i].DoLeaderSync? && id in steps[i].assignments && id in states[i].members
  }

  /** The step that gave member id what it holds in state n: the last one to name it since it
      became a member, or -1. */
  function Source(states: seq<Group>, steps: seq<Step>, n: nat, id: string): (i: int)
    requires n <= |steps| && |states| == |steps| + 1
    ensures -1 <= i < n
  {
    if n == 0 || id !in states[n - 1].members then -1
    else if Gives(states, steps, n - 1, id) then n - 1
    else Source(states, steps, n - 1, id)
  }

  lemma {:induction false} SourceIsLast(states: seq<Group>, steps: seq<Step>, n: nat, id: string)
    requires n <= |steps| && |states| == |steps| + 1
    ensures var i := Source(states, steps, n, id);
            i >= 0 ==> Gives(states, steps, i, id) && forall j | i < j < n :: !Gives(states, steps, j, id)
  {
    if n > 0 {
      SourceIsLast(states, steps, n - 1, id);
    }
  }

  lemma StepAssignment(g: Group, s: Step, id: string)
    requires Enabled(g, s) && id in Do(g, s).members
    ensures Do(g, s).members[id].assignment
            == if id !in g.members then []
               else if s.DoLeaderSync? && id in s.assignments then s.assignments[id]
               else g.members[id].assignment
  {
  }

  lemma {:induction false} AssignmentIs(states: seq<Group>, steps: seq<Step>, n: nat, id: string)
    requires Run(states, steps) && n < |states| && id in states[n].members
    ensures var i := Source(states, steps, n, id);
            && (i >= 0 ==> Gives(states, steps, i, id))
            && states[n].members[id].assignment == if i < 0 then [] else steps[i].assignments[id]
  {
    if n > 0 {
      assert Enabled(states[n - 1], steps[n - 1]);
      StepAssignment(states[n - 1], steps[n - 1], id);
      if id in states[n - 1].members && !Gives(states, steps, n - 1, id) {
        AssignmentIs(states, steps, n - 1, id);
      }
    }
  }

  /** In the generation of state n the leader has assigned something to member id. */
  ghost predicate AssignedNow(states: seq<Group>, steps: seq<Step>, n: nat, id: string)
    requires n <= |steps| && |states| == |steps| + 1
  {
    exists i {:trigger Gives(states, steps, i, id)} ::
      0 <= i < n && Gives(states, steps, i, id) && states[i].generation == states[n].generation
  }

  /** An assignment of this generation is never older than any step of it that names the member. */
  lemma {:induction false} SourceInGeneration(states: seq<Group>, steps: seq<Step>, n: nat, id: string, i: nat)
    requires Run(states, steps) && i < n < |states| && Gives(states, steps, i, id)
    requires states[i].generation == states[n].generation
    ensures var j := Source(states, steps, n, id); i <= j && states[j].generation == states[n].generation
    decreases n
  {
    Fencing(states, steps, i, n - 1);
    Fencing(states, steps, n - 1, n);
    if i < n - 1 && !Gives(states, steps, n - 1, id) {
      SourceInGeneration(states, steps, n - 1, id, i);
    }
  }

  lemma GivesIsStable(states: seq<Group>, steps: seq<Step>, n: nat, id: string)
    requires Run(states, steps) && n < |states| && AssignedNow(states, steps, n, id)
    ensures states[n].state == Stable
  {
    var i :| 0 <= i < n && Gives(states, steps, i, id) && states[i].generation == states[n].generation;
    RunOk(states, steps, i);
    assert Enabled(states[i], steps[i]);
    StepOk(states[i], steps[i]);
    Fencing(states, steps, i, i + 1);
    Fencing(states, steps, i + 1, n);
  }

  /** What a Sync that ends without an error at state n returns, the member's assignment, is what
      the last accepted Sync of the leader to name the member since it joined gave it, or nothing.
      That Sync is of the current generation if and only if one of the current generation names
      the member. In a group that is not stable none does, so a wait that ends by timeout always
      returns what an earlier generation left. */
  lemma SyncReturns(states: seq<Group>, steps: seq<Step>, n: nat, id: string)
    requires Run(states, steps) && n < |states| && id in states[n].members
    ensures var i, now := Source(states, steps, n, id), states[n];
            && (i >= 0 ==> Gives(states, steps, i, id) && forall j | i < j < n :: !Gives(states, steps, j, id))
            && now.members[id].assignment == (if i < 0 then [] else steps[i].assignments[id])
            && (i >= 0 && states[i].generation == now.generation <==> AssignedNow(states, steps, n, id))
            && (now.state != Stable ==> !AssignedNow(states, steps, n, id))
  {
    AssignmentIs(states, steps, n, id);
    SourceIsLast(states, steps, n, id);
    if AssignedNow(states, steps, n, id) {
      var i :| 0 <= i < n && Gives(states, steps, i, id) && states[i].generation == states[n].generation;
      SourceInGeneration(states, steps, n, id, i);
      GivesIsStable(states, steps, n, id);
    }
  }

  /** A stable generation has had a Sync of its leader. */
  lemma {:induction false} StableHasSync(states: seq<Group>, steps: seq<Step>, n: nat) returns (i: nat)
    requires Run(states, steps) && n < |states| && states[n].state == Stable
    ensures i < n && steps[i].DoLeaderSync? && states[i].generation == states[n].generation
  {
    RunOk(states, steps, n - 1);
    assert Enabled(states[n - 1], steps[n - 1]);
    StepOk(states[n - 1], steps[n - 1]);
    if steps[n - 1].DoLeaderSync? {
      i := n - 1;
    } else {
      i := StableHasSync(states, steps, n - 1);
    }
  }

  /** If every accepted Sync of the leader in a generation names every member of it, then once the
      group is stable every member's Sync returns what the leader gave it in this generation, and
      of that what it gave last. */
  lemma FullAssignment(states: seq<Group>, steps: seq<Step>, n: nat, id: string)
    requires Run(states, steps) && n < |states| && states[n].state == Stable && id in states[n].members
    requires forall i {:trigger steps[i]} | 0 <= i < n && steps[i].DoLeaderSync? ::
               states[i].generation == states[n].generation ==> states[i].members.Keys <= steps[i].assignments.Keys
    ensures exists i :: && 0 <= i < n && Gives(states, steps, i, id) && states[i].generation == states[n].generation
                        && states[n].members[id].assignment == steps[i].assignments[id]
                        && forall j | i < j < n :: !Gives(states, steps, j, id)
  {
    var i := StableHasSync(states, steps, n);
    Fencing(states, steps, i, n);
    assert id in states[i].members.Keys;
    assert Gives(states, steps, i, id);
    SyncReturns(states, steps, n, id);
    SourceInGeneration(states, steps, n, id, i);
  }

  /** Rebalancing does not clear assignments: in any run, a member that rejoins a stable group opens
      a generation of the same leader in which it still holds the old bytes and the leader has
      assigned it nothing. If it is a follower, a Sync that then waits in vain returns those bytes
      and no error. */
  lemma OldAssignmentSurvives(states: seq<Group>, steps: seq<Step>, n: nat)
    requires Run(states, steps) && n < |steps| && steps[n].DoJoin? && !steps[n].isNew
    requires states[n].state == Stable && steps[n].id in states[n].members
    ensures var id, g, h := steps[n].id, states[n], states[n + 1];
            && h.generation == g.generation + 1 && h.state == AwaitingSync && id in h.members && h.leader == g.leader
            && h.members[id].assignment == g.members[id].assignment && !AssignedNow(states, steps, n + 1, id)
  {
    RunOk(states, steps, n);
    assert Enabled(states[n], steps[n]);
    SyncReturns(states, steps, n + 1, steps[n].id);
  }

  lemma RunOn(states: seq<Group>, steps: seq<Step>, s: Step)
    requires Run(states, steps) && |steps| + 1 < MAX_GENERATION && Enabled(states[|steps|], s)
    ensures Run(states + [Do(states[|steps|], s)], steps + [s])
  {
    var more, done := states + [Do(states[|steps|], s)], steps + [s];
    forall i | 0 <= i < |done| ensures Enabled(more[i], done[i]) && more[i + 1] == Do(more[i], done[i]) {
      assert i < |steps| ==> Enabled(states[i], steps[i]);
    }
  }

  /** Two members join, and the leader assigns the follower the bytes x. */
  lemma StableRun(a: string, b: string, x: seq<byte>) returns (states: seq<Group>, steps: seq<Step>)
    requires a != "" && b != "" && a != b
    ensures Run(states, steps) && |steps| == 3
    ensures var g := states[3];
            g.state == Stable && g.leader == a && b in g.members && g.members[b].assignment == x
  {
    states, steps := [Group(0, "", Empty, map[], "")], [];
    var s := DoJoin(a, true, [], 0, 0, "");
    RunOn(states, steps, s);
    states, steps := states + [Do(states[0], s)], steps + [s];
    s := DoJoin(b, true, [], 0, 0, "");
    RunOn(states, steps, s);
    states, steps := states + [Do(states[1], s)], steps + [s];
    s := DoLeaderSync(map[b := x], 0);
    RunOn(states, steps, s);
    states, steps := states + [Do(states[2], s)], steps + [s];
  }

  /** A run in which it does: the follower rejoins, and then holds the bytes of the generation
      before while no step of the current one assigned it any. */
  lemma OldAssignmentRun(a: string, b: string, x: seq<byte>) returns (states: seq<Group>, steps: seq<Step>)
    requires a != "" && b != "" && a != b
    ensures Run(states, steps) && |steps| == 4
    ensures var g := states[4];
            && g.state == AwaitingSync && b in g.members && b != g.leader && g.members[b].assignment == x
            && !AssignedNow(states, steps, 4, b)
  {
    states, steps := StableRun(a, b, x);
    var s := DoJoin(b, false, [], 0, 0, "");
    RunOn(states, steps, s);
    states, steps := states + [Do(states[3], s)], steps + [s];
    OldAssignmentSurvives(states, steps, 3);
  }

  // ---------------------------------------------------------------- loops over the members

  method UnsyncAll(ms: map<string, Member>) returns (out: map<string, Member>)
    ensures out == Unsynced(ms)
  {
    out := ms;
    var left := ms.Keys;
    while left != {}
      invariant left <= ms.Keys && out.Keys == ms.Keys
      invariant forall id | id in ms :: out[id] == if id in left then ms[id] else ms[id].(synced := false)
      decreases |left|
    {
      var id :| id in left;
      out, left := out[id := out[id].(synced := false)], left - {id};
    }
  }

  method AssignAll(ms: map<string, Member>, assignments: map<string, seq<byte>>) returns (out: map<string, Member>)
    ensures out == Assigned(ms, assignments)
  {
    out := ms;
    var left := assignments.Keys;
    while left != {}
      invariant left <= assignments.Keys && out.Keys == ms.Keys
      invariant forall id | id in ms ::
                  out[id] == if id in assignments && id !in left then ms[id].(assignment := assignments[id]) else ms[id]
      decreases |left|
    {
      var id :| id in left;
      if id in out {
        out := out[id := out[id].(assignment := assignments[id])];
      }
      left := left - {id};
    }
  }

  method FindMetadata(ps: seq<Protocol>, name: string) returns (metadata: seq<byte>)
    ensures metadata == MetadataFor(ps, name)
  {
    assert ps[0..] == ps;
    for i := 0 to |ps|
      invariant ps != [] ==> MetadataFor(ps, name) == FirstNamed(ps[i..], name, ps[0].metadata)
    {
      assert ps[i..][1..] == ps[i + 1..];
      if ps[i].name == name {
        return ps[i].metadata;
      }
    }
    if |ps| > 0 {
      return ps[0].metadata;
    }
    return [];
  }

  method ListMembers(ms: map<string, Member>, protocol: string) returns (out: seq<Listed>)
    ensures Lists(out, ms, protocol)
  {
    out := [];
    var left := ms.Keys;
    while left != {}
      invariant left <= ms.Keys
      invariant forall i | 0 <= i < |out| ::
                  && out[i].id in ms && out[i].id !in left
                  && out[i].metadata == MetadataFor(ms[out[i].id].protocols, protocol)
      invariant forall id | id in ms && id !in left :: exists i | 0 <= i < |out| :: out[i].id == id
      invariant forall i, j | 0 <= i < j < |out| :: out[i].id != out[j].id
      decreases |left|
    {
      var id :| id in left;
      var metadata := FindMetadata(ms[id].protocols, protocol);
      ghost var was := out;
      out, left := out + [Listed(id, metadata)], left - {id};
      forall k | k in ms && k !in left ensures exists i | 0 <= i < |out| :: out[i].id == k {
        if k == id {
          assert out[|was|].id == k;
        } else {
          var i :| 0 <= i < |was| && was[i].id == k;
          assert out[i].id == k;
        }
      }
    }
  }

  method ChooseProtocol(ms: map<string, Member>, leader: string) returns (name: string)
    ensures Chosen(ms, leader, name)
  {
    if leader in ms && |ms[leader].protocols| > 0 {
      return ms[leader].protocols[0].name;
    }
    var left := ms.Keys;
    while left != {}
      invariant left <= ms.Keys && forall id | id in ms && id !in left :: ms[id].protocols == []
      decreases |left|
    {
      var id :| id in left;
      if |ms[id].protocols| > 0 {
        return ms[id].protocols[0].name;
      }
      left := left - {id};
    }
    return "";
  }

  method FindDead(ms: map<string, Member>, now: int) returns (dead: set<string>)
    ensures dead == Dead(ms, now)
  {
    dead := {};
    var left := ms.Keys;
    while left != {}
      invariant left <= ms.Keys
      invariant forall id :: id in dead <==>
                  id in ms && id !in left && now - ms[id].lastHeartbeat > ms[id].sessionTimeout
      decreases |left|
    {
      var id :| id in left;
      if now - ms[id].lastHeartbeat > ms[id].sessionTimeout {
        dead := dead + {id};
      }
      left := left - {id};
    }
  }

  // ---------------------------------------------------------------- the group

  datatype JoinResult = JoinResult(generation: int, protocol: string, leader: string, member: string,
                                   members: seq<Listed>)

  datatype SyncResult = Given(assignment: seq<byte>) | Wait | UnknownMember | IllegalGeneration | RebalanceInProgress

  datatype BeatResult = Beat | BeatUnknown | BeatRebalance | BeatIllegal

  datatype Waiter = Waiter(id: string, generation: int)

  /** h is g without the members in gone: the others keep everything but having synced, the leader
      stays if it can, and a new generation is open. */
  ghost predicate Removes(g: Group, gone: set<string>, h: Group)
  {
    && (forall id :: id in h.members <==> id in g.members && id !in gone)
    && (forall id | id in h.members ::
          var m, n := g.members[id], h.members[id];
          && n.protocols == m.protocols && n.assignment == m.assignment && !n.synced
          && n.lastHeartbeat == m.lastHeartbeat && n.sessionTimeout == m.sessionTimeout)
    && h.generation == g.generation + 1 && h.protocol == g.protocol
    && (if h.members == map[] then h.state == Empty && h.leader == ""
        else h.state == AwaitingSync && h.leader in h.members && (g.leader in h.members ==> h.leader == g.leader))
  }

  class ConsumerGroup {
    var generation: int
    var leaderId: string
    var state: State
    var members: map<string, Member>
    var protocolName: string
    /** The followers blocked in Sync. */
    ghost var waiting: set<Waiter>

    function Value(): Group
      reads this
    {
      Group(generation, leaderId, state, members, protocolName)
    }

    ghost predicate Valid()
      reads this
    {
      && GroupOk(Value())
      && forall w | w in waiting :: w.generation <= generation && (w.generation == generation ==> w.id in members)
    }

    constructor ()
      ensures Valid() && Value() == Group(0, "", Empty, map[], "") && waiting == {}
    {
      generation, leaderId, state, members, protocolName, waiting := 0, "", Empty, map[], "", {};
    }

    /** Join. newId is the id made up for a member that has none. */
    method Join(memberId: string, newId: string, protocols: seq<Protocol>, now: int, timeoutMs: int)
        returns (r: JoinResult)
      requires Valid() && newId != "" && generation < MAX_GENERATION
      modifies this
      ensures Valid() && waiting == old(waiting)
      ensures var id := if memberId == "" then newId else memberId;
              && Value() == Joined(old(Value()), id, memberId == "", protocols, now, timeoutMs, r.protocol)
              && r.member == id && r.generation == generation && r.leader == leaderId && r.protocol == protocolName
              && (if id == leaderId then Lists(r.members, members, protocolName) else r.members == [])
      ensures Chosen(members, leaderId, protocolName)
    {
      var id := if memberId == "" then newId else memberId;
      Admit(id, memberId == "", protocols, now, timeoutMs);
      protocolName := ChooseProtocol(members, leaderId);
      var list := [];
      if id == leaderId {
        list := ListMembers(members, protocolName);
      }
      r := JoinResult(generation, protocolName, leaderId, id, list);
    }

    /** The part of Join that changes the membership. */
    method Admit(id: string, made: bool, protocols: seq<Protocol>, now: int, timeoutMs: int)
      requires Valid() && id != "" && generation < MAX_GENERATION
      modifies this
      ensures Valid() && waiting == old(waiting)
      ensures Value() == Joined(old(Value()), id, made, protocols, now, timeoutMs, old(protocolName))
    {
      var isNew := made || id !in members;
      var ms := members[id := Refreshed(members, id, protocols, now, timeoutMs)];
      if isNew || state != AwaitingSync {
        ms := UnsyncAll(ms);
        generation, state := generation + 1, AwaitingSync;
      }
      members := ms;
      if leaderId !in ms || leaderId == "" {
        leaderId := id;
      }
    }

    /** Sync up to the point where a follower starts to wait. */
    method SyncBegin(memberId: string, gen: int, assignments: map<string, seq<byte>>, now: int) returns (r: SyncResult)
      requires Valid()
      modifies this
      ensures Valid()
      ensures var g := old(Value());
              if memberId !in g.members then r == UnknownMember && Value() == g && waiting == old(waiting)
              else if gen != g.generation then r == IllegalGeneration && Value() == g && waiting == old(waiting)
              else if memberId == g.leader then
                && Value() == LeaderSynced(g, assignments, now) && waiting == old(waiting)
                && r == Given(members[memberId].assignment)
              else r == Wait && Value() == g && waiting == old(waiting) + {Waiter(memberId, gen)}
    {
      if memberId !in members {
        return UnknownMember;
      }
      if gen != generation {
        return IllegalGeneration;
      }
      if memberId != leaderId {
        waiting := waiting + {Waiter(memberId, gen)};
        return Wait;
      }
      var ms := AssignAll(members, assignments);
      ms := ms[memberId := ms[memberId].(synced := true, lastHeartbeat := now)];
      members, state := ms, Stable;
      r := Given(members[memberId].assignment);
    }

    /** What a waiting follower does when it is woken; expired says its deadline has passed. */
    method SyncWake(memberId: string, gen: int, now: int, expired: bool) returns (r: SyncResult)
      requires Valid() && Waiter(memberId, gen) in waiting
      modifies this
      ensures Valid()
      ensures var g := old(Value());
              if gen != g.generation then r == RebalanceInProgress && Value() == g
              else if g.state == Stable || expired then
                && memberId in g.members && r == Given(g.members[memberId].assignment)
                && Value() == Synced(g, memberId, now)
              else r == Wait && Value() == g
      ensures waiting == if r == Wait then old(waiting) else old(waiting) - {Waiter(memberId, gen)}
    {
      if state != Stable && gen == generation && !expired {
        return Wait;
      }
      waiting := waiting - {Waiter(memberId, gen)};
      if gen != generation {
        return RebalanceInProgress;
      }
      members := members[memberId := members[memberId].(synced := true, lastHeartbeat := now)];
      r := Given(members[memberId].assignment);
    }

    /** Heartbeat. */
    method Heartbeat(memberId: string, gen: int, now: int) returns (r: BeatResult)
      requires Valid()
      modifies this`members
      ensures Valid()
      ensures var g := old(Value());
              if memberId !in g.members then r == BeatUnknown && Value() == g
              else if gen < g.generation then r == BeatRebalance && Value() == g
              else if gen > g.generation then r == BeatIllegal && Value() == g
              else r == Beat && Value() == Beaten(g, memberId, now)
      ensures r == Beat ==> && members.Keys == old(members).Keys && members[memberId].lastHeartbeat == now
                            && forall id | id in members && id != memberId :: members[id] == old(members)[id]
    {
      if memberId !in members {
        return BeatUnknown;
      }
      if gen < generation {
        return BeatRebalance;
      }
      if gen > generation {
        return BeatIllegal;
      }
      members := members[memberId := members[memberId].(lastHeartbeat := now)];
      r := Beat;
    }

    /** Leave. */
    method Leave(memberId: string) returns (known: bool)
      requires Valid() && generation < MAX_GENERATION
      modifies this
      ensures Valid() && waiting == old(waiting) && known == (memberId in old(members))
      ensures if known then RemovedAre(old(Value()), {memberId}, Value()) && Removes(old(Value()), {memberId}, Value())
              else Value() == old(Value())
    {
      known := memberId in members;
      if known {
        Remove({memberId});
      }
    }

    /** reap on this group. */
    method Reap(now: int)
      requires Valid() && generation < MAX_GENERATION
      modifies this
      ensures Valid() && waiting == old(waiting)
      ensures var dead := Dead(old(members), now);
              if dead == {} then Value() == old(Value())
              else RemovedAre(old(Value()), dead, Value()) && Removes(old(Value()), dead, Value())
      ensures forall id | id in old(members) ::
                var m := old(members)[id]; id in members <==> now - m.lastHeartbeat <= m.sessionTimeout
    {
      var dead := FindDead(members, now);
      ghost var ms := members;
      if dead != {} {
        Remove(dead);
      }
      assert forall id | id in ms :: id in members <==> id !in dead;
      assert forall id | id in ms :: id in dead <==> now - ms[id].lastHeartbeat > ms[id].sessionTimeout;
    }

    /** Deleting members and rebalanceLocked. */
    method Remove(gone: set<string>)
      requires Valid() && gone != {} && gone <= members.Keys && generation < MAX_GENERATION
      modifies this
      ensures Valid() && waiting == old(waiting) && RemovedAre(old(Value()), gone, Value())
      ensures Removes(old(Value()), gone, Value())
    {
      ghost var g := Value();
      var ms := members - gone;
      ghost var pick := "";
      generation := generation + 1;
      if ms == map[] {
        state, leaderId := Empty, "";
      } else {
        state := AwaitingSync;
        if leaderId !in ms {
          var id :| id in ms;
          leaderId := id;
          pick := id;
        }
        ms := UnsyncAll(ms);
      }
      members := ms;
      assert Value() == Rebalanced(g, gone, pick) && CanPick(g, gone, pick);
    }
  }

  /** h is g after removing these members and rebalancing, with some surviving member as leader. */
  ghost predicate RemovedAre(g: Group, gone: set<string>, h: Group)
  {
    exists pick {:trigger Rebalanced(g, gone, pick)} :: CanPick(g, gone, pick) && h == Rebalanced(g, gone, pick)
  }
}
