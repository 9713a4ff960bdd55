// The routers' list of shards beside the cluster's rows: growth registers the new shards by name and a shrink
// takes the drained names off (controller/taskmanager.py, _create_shard; controller/api.py, _shrink_sharded;
// service.py, add_shard and remove_shard).

module RouterRegistry {
  import opened Roles
  import opened Topology
  import opened GrowthNames
  import opened ShardNames
  import opened ShardedShrink

  type Registry = map<string, string>

  function NamesOf(numbers: set<nat>): set<string> { set n | n in numbers :: NameOf(n) }

  lemma NamesJoin(a: set<nat>, b: set<nat>)
    ensures NamesOf(a + b) == NamesOf(a) + NamesOf(b) && NamesOf(a - b) == NamesOf(a) - NamesOf(b)
    ensures NamesOf(a) !! NamesOf(b) <==> a !! b
    ensures NamesOf(a) == NamesOf(b) ==> a == b
  {
    forall x, y | NameOf(x) == NameOf(y) ensures x == y { NamesInjective(x, y); }
    forall x ensures NameOf(x) in NamesOf(a) <==> x in a { }
    forall x ensures NameOf(x) in NamesOf(b) <==> x in b { }
    forall x | x in a && x in b ensures NameOf(x) in NamesOf(a) * NamesOf(b) { }
  }

  /** add_shard for the m shards numbered from `number`. */
  function AddAll(registry: Registry, number: nat, m: nat, address: nat -> string): Registry {
    if m == 0 then registry
    else AddShard(AddAll(registry, number, m - 1, address), NameOf(number + m - 1), address(number + m - 1)).0
  }

  lemma {:induction false} AddAllNames(registry: Registry, number: nat, m: nat, address: nat -> string)
    ensures AddAll(registry, number, m, address).Keys == registry.Keys + NamesOf(Span(number, m))
  {
    if m == 0 {
      assert NamesOf(Span(number, 0)) == {};
    } else {
      AddAllNames(registry, number, m - 1, address);
      AddLast(registry, number, m, address, AddAll(registry, number, m - 1, address),
              AddAll(registry, number, m, address));
    }
  }

  lemma AddLast(registry: Registry, number: nat, m: nat, address: nat -> string, before: Registry, after: Registry)
    requires m > 0 && before.Keys == registry.Keys + NamesOf(Span(number, m - 1))
    requires after == AddShard(before, NameOf(number + m - 1), address(number + m - 1)).0
    ensures after.Keys == registry.Keys + NamesOf(Span(number, m))
  {
    AddKeys(before, NameOf(number + m - 1), address(number + m - 1));
    OneMoreName(after.Keys, before.Keys, registry.Keys, number, m);
  }

  lemma OneMoreName(all: set<string>, before: set<string>, start: set<string>, number: nat, m: nat)
    requires m > 0 && before == start + NamesOf(Span(number, m - 1)) && all == before + {NameOf(number + m - 1)}
    ensures all == start + NamesOf(Span(number, m))
  {
    SpanNames(number, m);
  }

  lemma SpanNames(number: nat, m: nat)
    requires m > 0
    ensures NamesOf(Span(number, m)) == NamesOf(Span(number, m - 1)) + {NameOf(number + m - 1)}
  {
    NamesJoin(Span(number, m - 1), {number + m - 1});
    OneName(number + m - 1);
  }

  lemma OneName(n: nat)
    ensures NamesOf({n}) == {NameOf(n)}
  {
  }

  lemma AddKeys(registry: Registry, name: string, member: string)
    ensures AddShard(registry, name, member).0.Keys == registry.Keys + {name}
  {
  }

  /** The list after a completed step. */
  function RegistryAfter(rows: seq<Row>, registry: Registry, step: Step, address: nat -> string): Registry {
    match step
    case Grow(sizes, _, _, _) => AddAll(registry, NextNumber(rows), |sizes|, address)
    case Shrink(ids) => registry - NamesOf(TargetNames(rows, ids))
    case GrowReplica(_, _) => registry
    case ShrinkReplica(_) => registry
  }

  /** Every live shard is registered under a name of its own, and nothing else is. */
  ghost predicate Matches(rows: seq<Row>, registry: Registry) {
    OneToOne(rows) && registry.Keys == NamesOf(Numbers(rows))
  }

  /** The step gives a new shard the number of a live one. */
  ghost predicate RepeatsLive(rows: seq<Row>, step: Step) {
    step.Grow? && !(Numbers(rows) !! Span(NextNumber(rows), |step.sizes|))
  }

  lemma GrowthMatches(rows: seq<Row>, registry: Registry, step: Step, address: nat -> string)
    requires step.Grow? && Allowed(rows, step) && Matches(rows, registry)
    ensures Matches(After(rows, step), RegistryAfter(rows, registry, step, address)) <==> !RepeatsLive(rows, step)
  {
    var number, m := NextNumber(rows), |step.sizes|;
    OneToOneIff(rows, step.sizes, step.routers, step.first, step.shard);
    var added, last := GrowthSplit(rows, step.sizes, step.routers, step.first, step.shard);
    LabelsOfAll(rows, added, last);
    AddAllNames(registry, number, m, address);
    NamesJoin(Numbers(rows), Span(number, m));
  }

  /** A shrink takes whole shards, and with them exactly their own names. */
  lemma ShrinkMatches(rows: seq<Row>, registry: Registry, ids: set<nat>)
    requires MayShrink(rows, ids) && Matches(rows, registry)
    ensures Matches(Without(rows, ids), registry - NamesOf(TargetNames(rows, ids)))
  {
    var left := Without(rows, ids);
    forall r ensures r in left <==> r in rows && r.id !in ids { WithoutMember(rows, ids, r); }
    forall n | n in Numbers(left) ensures n in Numbers(rows) - TargetNames(rows, ids) {
      var r :| r in left && r.kind == Member && r.number == n;
      NoTargetStays(rows, ids, r);
    }
    forall n | n in Numbers(rows) - TargetNames(rows, ids) ensures n in Numbers(left) {
      var r :| r in rows && r.kind == Member && r.number == n;
      assert r in left;
    }
    NamesJoin(Numbers(rows), TargetNames(rows, ids));
  }

  lemma NoTargetStays(rows: seq<Row>, ids: set<nat>, r: Row)
    requires MayShrink(rows, ids) && OneToOne(rows) && r in rows && r.kind == Member && r.id !in ids
    ensures r.number !in TargetNames(rows, ids)
  {
    forall x | x in rows && x.kind == Member && x.id in ids ensures x.number != r.number {
      assert x.shard != r.shard;
    }
  }

  /** A step keeps the list in step with the shards exactly when it repeats no live number. */
  lemma StepMatches(rows: seq<Row>, registry: Registry, step: Step, address: nat -> string)
    requires ShardedInv(rows) && Allowed(rows, step) && Matches(rows, registry)
    ensures Matches(After(rows, step), RegistryAfter(rows, registry, step, address)) <==> !RepeatsLive(rows, step)
  {
    ShardedIsSharded(rows);
    match step
    case Grow(_, _, _, _) => GrowthMatches(rows, registry, step, address);
    case Shrink(ids) => ShrinkMatches(rows, registry, ids);
    case GrowReplica(_, _) =>
    case ShrinkReplica(_) =>
  }

  /** A created cluster starts with its one shard registered. */
  lemma CreatedMatches(members: nat, configServers: nat, routers: nat, registry: Registry)
    requires members > 0 && registry.Keys == {NameOf(1)}
    ensures Matches(CreatedRows(members, configServers, routers), registry)
  {
    var shard := ShardRows(0, 0, 1, members);
    var rest := PlainRows(members, ConfigServer, configServers);
    var last := PlainRows(members + configServers, QueryRouter, routers);
    FirstShardAlone(shard, members);
    PlainRowsAre(members, ConfigServer, configServers);
    WithOthers(shard, rest);
    PlainRowsAre(members + configServers, QueryRouter, routers);
    WithOthers(shard + rest, last);
    OneName(1);
  }

  lemma FirstShardAlone(shard: seq<Row>, members: nat)
    requires members > 0 && shard == ShardRows(0, 0, 1, members)
    ensures OneToOne(shard) && Numbers(shard) == {1}
  {
    OneShardLabels(shard, 0, 0, 1, members);
  }

  lemma WithOthers(rows: seq<Row>, others: seq<Row>)
    requires OneToOne(rows) && forall r :: r in others ==> r.kind != Member
    ensures OneToOne(rows + others) && Numbers(rows + others) == Numbers(rows)
  {
    OneToOneWithout(rows, others);
    NumbersJoin(rows, others);
    NoMembers(others);
  }

  /** The list after n steps of a run. */
  function RegistryOf(states: seq<seq<Row>>, steps: seq<Step>, start: Registry, n: nat, address: nat -> string)
    : Registry
    requires n <= |steps| < |states|
  {
    if n == 0 then start
    else RegistryAfter(states[n-1], RegistryOf(states, steps, start, n - 1, address), steps[n-1], address)
  }

  /** Through a run every live shard is registered under its own name, at every moment, exactly when no growth
      repeats a live number. */
  lemma {:induction false} RegistryRuns(states: seq<seq<Row>>, steps: seq<Step>, start: Registry, n: nat,
                                        address: nat -> string)
    requires IsRun(states, steps) && n <= |steps| && ShardedInv(states[0]) && Matches(states[0], start)
    ensures (forall i :: 0 <= i <= n ==> Matches(states[i], RegistryOf(states, steps, start, i, address)))
            <==> (forall i :: 0 <= i < n ==> !RepeatsLive(states[i], steps[i]))
  {
    if n > 0 {
      RegistryRuns(states, steps, start, n - 1, address);
      ShardedRuns(states, steps, n - 1);
      var before := RegistryOf(states, steps, start, n - 1, address);
      assert Completes(states[n-1], steps[n-1], states[n]);
      if Matches(states[n-1], before) { StepMatches(states[n-1], before, steps[n-1], address); }
    }
  }

  // ---------- Shards that stay ----------

  /** Two shards, one that goes and one that stays, carry one registered name. */
  ghost predicate SharedName(rows: seq<Row>, ids: set<nat>, registry: Registry) {
    exists a, b :: a in rows && b in rows && a.kind == Member && b.kind == Member && a.id in ids && b.id !in ids
                   && a.number == b.number && NameOf(b.number) in registry
  }

  ghost predicate StaysRegistered(rows: seq<Row>, ids: set<nat>, registry: Registry) {
    forall r :: r in rows && r.kind == Member && r.id !in ids && NameOf(r.number) in registry ==>
      NameOf(r.number) in registry - NamesOf(TargetNames(rows, ids))
  }

  /** A shrink leaves every registered shard that stays on the list exactly when it shares no registered name with
      a shard that goes. One name to a shard is enough. */
  lemma StaysRegisteredIff(rows: seq<Row>, ids: set<nat>, registry: Registry)
    requires MayShrink(rows, ids)
    ensures StaysRegistered(rows, ids, registry) <==> !SharedName(rows, ids, registry)
    ensures OneToOne(rows) ==> StaysRegistered(rows, ids, registry)
  {
    forall r | r in rows && r.kind == Member && r.id !in ids
      ensures OneToOne(rows) ==> r.number !in TargetNames(rows, ids)
      ensures NameOf(r.number) in NamesOf(TargetNames(rows, ids)) <==> r.number in TargetNames(rows, ids)
    {
      if OneToOne(rows) { NoTargetStays(rows, ids, r); }
      NamesJoin({r.number}, TargetNames(rows, ids));
      OneName(r.number);
    }
  }

  // ---------- The run that repeats a number ----------

  /** Along the run of GrowthNames.RepeatedNumber the third shard, which repeats number 2, is not registered; the
      removal of that shard is then allowed and takes the live second shard off the list. */
  lemma DuplicateUnregistered(member: string, address: nat -> string)
    ensures var grow1, shrink, grow2 := Grow([2], 0, 5, 1), Shrink({0, 1}), Grow([2], 0, 7, 2);
            var s0, s1 := FIRST_SHARD + OTHERS, FIRST_SHARD + OTHERS + SECOND_SHARD;
            var s2, s3 := OTHERS + SECOND_SHARD, OTHERS + SECOND_SHARD + THIRD_SHARD;
            var g0 := map[NameOf(1) := member];
            var g1 := RegistryAfter(s0, g0, grow1, address);
            var g2 := RegistryAfter(s1, g1, shrink, address);
            && g2.Keys == {NameOf(2)} && RegistryAfter(s2, g2, grow2, address) == g2
            && Allowed(s3, Shrink({7, 8})) && (forall r :: r in SECOND_SHARD ==> r in Without(s3, {7, 8}))
            && RegistryAfter(s3, g2, Shrink({7, 8}), address) == map[]
  {
    var s0, s1 := FIRST_SHARD + OTHERS, FIRST_SHARD + OTHERS + SECOND_SHARD;
    var s2, s3 := OTHERS + SECOND_SHARD, OTHERS + SECOND_SHARD + THIRD_SHARD;
    var g0 := map[NameOf(1) := member];
    var g1 := AddAll(g0, 2, 1, address);
    var g2 := g1 - {NameOf(1)};
    Counts(s0, s2);
    FirstTarget(s1);
    OneName(1);
    SecondAlone(g0, g1, g2, member, address);
    AddOne(g2, 2, address);
    LastRemovalAllowed(s3);
    LastRemoved(s3, g2, address);
  }

  lemma SecondAlone(g0: Registry, g1: Registry, g2: Registry, member: string, address: nat -> string)
    requires g0 == map[NameOf(1) := member] && g1 == AddAll(g0, 2, 1, address) && g2 == g1 - {NameOf(1)}
    ensures g2.Keys == {NameOf(2)}
  {
    AddOne(g0, 2, address);
    if NameOf(1) == NameOf(2) { NamesInjective(1, 2); }
  }

  lemma LastRemoved(s3: seq<Row>, registry: Registry, address: nat -> string)
    requires s3 == OTHERS + SECOND_SHARD + THIRD_SHARD && registry.Keys == {NameOf(2)}
    ensures RegistryAfter(s3, registry, Shrink({7, 8}), address) == map[]
  {
    LastTarget(s3);
    OneName(2);
  }

  lemma AddOne(registry: Registry, number: nat, address: nat -> string)
    ensures AddAll(registry, number, 1, address) == AddShard(registry, NameOf(number), address(number)).0
  {
    assert AddAll(registry, number, 0, address) == registry;
  }

  lemma Counts(s0: seq<Row>, s2: seq<Row>)
    requires s0 == FIRST_SHARD + OTHERS && s2 == OTHERS + SECOND_SHARD
    ensures NextNumber(s0) == 2 && NextNumber(s2) == 2
  {
    assert s0[0] in s0 && s2[3] in s2;
    assert Shards(s0) == {0} && Shards(s2) == {1};
  }

  lemma FirstTarget(s1: seq<Row>)
    requires s1 == FIRST_SHARD + OTHERS + SECOND_SHARD
    ensures TargetNames(s1, {0, 1}) == {1}
  {
    assert s1[0] in s1;
  }

  lemma LastTarget(s3: seq<Row>)
    requires s3 == OTHERS + SECOND_SHARD + THIRD_SHARD
    ensures TargetNames(s3, {7, 8}) == {2}
  {
    assert s3[5] in s3;
  }

  lemma LastRemovalAllowed(s3: seq<Row>)
    requires s3 == OTHERS + SECOND_SHARD + THIRD_SHARD
    ensures Allowed(s3, Shrink({7, 8})) && forall r :: r in SECOND_SHARD ==> r in Without(s3, {7, 8})
  {
    var ids := {7, 8};
    assert s3[0] in s3 && s3[2] in s3 && s3[3] in s3 && s3[5] in s3 && s3[6] in s3;
    assert 7 in Ids(s3) && 8 in Ids(s3);
    forall r | r in s3 ensures r.id in ids <==> r.kind == Member && r.shard == 2 { ThirdOnly(r); }
    forall r | r in SECOND_SHARD ensures r in Without(s3, ids) { WithoutMember(s3, ids, r); }
  }

  lemma ThirdOnly(r: Row)
    requires r in OTHERS + SECOND_SHARD + THIRD_SHARD
    ensures r.id in {7, 8} <==> r.kind == Member && r.shard == 2
  {
  }
}
