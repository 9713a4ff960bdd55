// What stands where in the guest calls of a cluster assembly, read off the events alone
// (controller/taskmanager.py, MongoDbClusterTasks.create_cluster and grow_cluster).

module AssemblyOrder {
  import opened AssemblyTrace
  import opened Filters
  import opened Roles

  /** Ascending positions of just the elements that are kept. */
  ghost predicate Kept<T>(t: seq<T>, kept: seq<T>, pos: seq<nat>) {
    && |pos| == |kept|
    && (forall i :: 0 <= i < |pos| ==> pos[i] < |t| && t[pos[i]] == kept[i])
    && (forall i, j :: 0 <= i < j < |pos| ==> pos[i] < pos[j])
  }

  ghost predicate AllPositions<T>(t: seq<T>, f: T -> bool, pos: seq<nat>) {
    forall x :: 0 <= x < |t| && f(t[x]) ==> x in pos
  }

  /** Where the events that Filter keeps stand: in order, and all of them. */
  lemma {:induction false} Positions<T>(t: seq<T>, f: T -> bool) returns (pos: seq<nat>)
    ensures Kept(t, Filter(t, f), pos) && AllPositions(t, f, pos)
  {
    pos := [];
    if t != [] {
      var rest := Positions(t[1..], f);
      KeptLater(t, Filter(t[1..], f), rest);
      pos := if f(t[0]) then [0] + Shifted(rest) else Shifted(rest);
      if f(t[0]) { KeptFirst(t, Filter(t[1..], f), Shifted(rest)); }
      AllLater(t, f, rest, pos);
    }
  }

  lemma KeptLater<T>(t: seq<T>, kept: seq<T>, rest: seq<nat>)
    requires t != [] && Kept(t[1..], kept, rest)
    ensures Kept(t, kept, Shifted(rest)) && forall i :: 0 <= i < |rest| ==> Shifted(rest)[i] > 0
  {
  }

  lemma KeptFirst<T>(t: seq<T>, kept: seq<T>, later: seq<nat>)
    requires t != [] && Kept(t, kept, later) && forall i :: 0 <= i < |later| ==> later[i] > 0
    ensures Kept(t, [t[0]] + kept, [0] + later)
  {
  }

  lemma AllLater<T>(t: seq<T>, f: T -> bool, rest: seq<nat>, pos: seq<nat>)
    requires t != [] && AllPositions(t[1..], f, rest)
    requires pos == if f(t[0]) then [0] + Shifted(rest) else Shifted(rest)
    ensures AllPositions(t, f, pos)
  {
    forall x | 0 <= x < |t| && f(t[x]) ensures x in pos {
      if x == 0 {
        assert pos[0] == 0;
      } else {
        assert t[1..][x-1] == t[x];
        var i :| 0 <= i < |rest| && rest[i] == x - 1;
        assert Shifted(rest)[i] == x && Shifted(rest)[i] in pos;
      }
    }
  }

  function Shifted(pos: seq<nat>): (later: seq<nat>)
    ensures |later| == |pos| && forall i :: 0 <= i < |pos| ==> later[i] == pos[i] + 1
  {
    seq(|pos|, i requires 0 <= i < |pos| => pos[i] + 1)
  }

  /** The addresses of exactly these instances, in order. */
  predicate AddressesOf(addresses: seq<string>, members: seq<Instance>) {
    |addresses| == |members| && forall i :: 0 <= i < |members| ==> addresses[i] == members[i].address
  }

  predicate Begins(e: Event, group: Group, members: seq<Instance>)
    requires members != []
  {
    e.Initiated? && e.group == group && e.leader == members[0].id && AddressesOf(e.addresses, members)
  }

  predicate Waits(e: Event, group: Group, members: seq<Instance>) {
    e.Ready? && e.group == group && AddressesOf(e.addresses, members)
  }

  predicate Concerns(e: Event, group: Group) { (e.Initiated? || e.Ready?) && e.group == group }

  /** The replica set is initiated once, on its first member and with all its members, and waited for once, after
      that. */
  ghost predicate SetUpOnce(t: seq<Event>, group: Group, members: seq<Instance>)
    requires members != []
  {
    exists i, j :: 0 <= i < j < |t| && Begins(t[i], group, members) && Waits(t[j], group, members)
                   && forall x :: 0 <= x < |t| && Concerns(t[x], group) ==> x == i || x == j
  }

  predicate Registers(e: Event, s: nat, router: nat, members: seq<Instance>)
    requires members != []
  {
    e == Registered(s, router, members[0].setName, members[0].address)
  }

  /** The shard is then registered once, under the name that its first member reports. */
  ghost predicate ShardOnce(t: seq<Event>, s: nat, router: nat, members: seq<Instance>)
    requires members != []
  {
    exists i, j, k :: 0 <= i < j < k < |t|
      && Begins(t[i], Shard(s), members) && Waits(t[j], Shard(s), members) && Registers(t[k], s, router, members)
      && forall x :: 0 <= x < |t| && (Concerns(t[x], Shard(s)) || (t[x].Registered? && t[x].shard == s)) ==>
           x == i || x == j || x == k
  }

  ghost predicate ShardNever(t: seq<Event>, s: nat) {
    forall e :: e in t ==> !Concerns(e, Shard(s)) && !(e.Registered? && e.shard == s)
  }

  predicate OfSomeShard(e: Event) { ((e.Initiated? || e.Ready?) && e.group.Shard?) || e.Registered? }

  predicate OfConfigs(e: Event) { Concerns(e, Configs) }

  /** First the config servers, then the routers, then the shards, and the completion calls last. */
  ghost predicate InPhases(t: seq<Event>) {
    forall i, j :: 0 <= i < j < |t| ==>
      && (t[i].Told? ==> t[j].Told?)
      && (OfSomeShard(t[i]) ==> OfSomeShard(t[j]) || t[j].Told?)
      && (t[i].Configured? ==> !OfConfigs(t[j]))
  }

  lemma TwoPositions(t: seq<Event>, f: Event -> bool, group: Group, members: seq<Instance>)
    requires members != [] && Filter(t, f) == InitTrace(group, members)
    requires forall e: Event :: f(e) <==> Concerns(e, group)
    ensures SetUpOnce(t, group, members)
  {
    var pos := Positions(t, f);
    var i, j := pos[0], pos[1];
    assert Begins(t[i], group, members) && Waits(t[j], group, members);
    forall x | 0 <= x < |t| && Concerns(t[x], group) ensures x == i || x == j { assert f(t[x]); }
  }

  lemma ThreeOf(t: seq<Event>, f: Event -> bool, a: Event, b: Event, c: Event) returns (i: nat, j: nat, k: nat)
    requires Filter(t, f) == [a, b, c]
    ensures i < j < k < |t| && t[i] == a && t[j] == b && t[k] == c
    ensures forall x :: 0 <= x < |t| && f(t[x]) ==> x == i || x == j || x == k
  {
    var pos := Positions(t, f);
    i, j, k := pos[0], pos[1], pos[2];
  }

  lemma ThreePositions(t: seq<Event>, s: nat, router: nat, members: seq<Instance>)
    requires members != [] && Filter(t, About(s)) == ShardTrace(s, router, members)
    ensures ShardOnce(t, s, router, members)
  {
    var trace := ShardTrace(s, router, members);
    var i, j, k := ThreeOf(t, About(s), trace[0], trace[1], trace[2]);
    assert Begins(t[i], Shard(s), members) && Waits(t[j], Shard(s), members) && Registers(t[k], s, router, members);
    forall x | 0 <= x < |t| && (Concerns(t[x], Shard(s)) || (t[x].Registered? && t[x].shard == s))
      ensures x == i || x == j || x == k
    {
      assert About(s)(t[x]);
    }
  }

  lemma NoPosition(t: seq<Event>, s: nat)
    requires Filter(t, About(s)) == []
    ensures ShardNever(t, s)
  {
    forall e | e in t ensures !AboutShard(e, s) { FilterMember(t, About(s), e); }
  }

  /** What a trace in order says of one shard. */
  ghost predicate ShardPlaced(t: seq<Event>, s: nat, router: nat, mine: seq<Instance>) {
    if mine == [] then ShardNever(t, s) else ShardOnce(t, s, router, mine)
  }

  lemma PlacedInOrder(t: seq<Event>, routers: seq<Instance>, recent: seq<Instance>, configs: seq<Instance>,
                      members: seq<Instance>, told: seq<Instance>, s: nat)
    requires routers != [] && InOrder(t, routers, recent, configs, members, told)
    requires forall e :: e in t ==> !e.Joined?
    ensures InPhases(t) && ShardPlaced(t, s, routers[0].id, OfShard(members, s))
  {
    Phased(t);
    var mine := OfShard(members, s);
    assert Filter(t, About(s)) == ShardTrace(s, routers[0].id, mine);
    if mine == [] { NoPosition(t, s); } else { ThreePositions(t, s, routers[0].id, mine); }
  }

  lemma Phased(t: seq<Event>)
    requires Ordered(t) && forall e :: e in t ==> !e.Joined?
    ensures InPhases(t)
  {
    forall i, j | 0 <= i < j < |t| ensures Rank(t[i]) <= Rank(t[j]) { }
  }

  lemma ConfigsPlaced(a: seq<Event>, b: seq<Event>, c: seq<Event>, d: seq<Event>, configs: seq<Instance>)
    requires a == InitTrace(Configs, configs) && AllRank(b, 1) && AllRank(c, 2) && AllRank(d, 3) && configs != []
    ensures SetUpOnce(a + (b + c) + d, Configs, configs)
  {
    var f := (e: Event) => Concerns(e, Configs);
    PickPart(a, b, c, d, f, 0);
    FilterAll(a, f);
    TwoPositions(a + (b + c) + d, f, Configs, configs);
  }

  /** A creation of a sharded cluster: config servers, routers and shards in phases; the config servers and every
      shard initiated, awaited and, for a shard, registered in that order and once. */
  lemma CreatedInOrder(instances: seq<Instance>, s: nat)
    requires DistinctIds(instances)
    requires OfKind(instances, ConfigServer) != [] && OfKind(instances, QueryRouter) != []
    ensures var t, routers := CreateTrace(instances), OfKind(instances, QueryRouter);
            && InPhases(t) && SetUpOnce(t, Configs, OfKind(instances, ConfigServer))
            && ShardPlaced(t, s, routers[0].id, OfShard(OfKind(instances, Member), s))
  {
    var configs, routers := OfKind(instances, ConfigServer), OfKind(instances, QueryRouter);
    var members := OfKind(instances, Member);
    var a, b, c, d := InitTrace(Configs, configs), RoutersTrace(routers, configs), AllShardsTrace(routers, members),
        TellTrace(instances, |instances|);
    ShardedCreation(instances);
    WorkRanks(routers, routers, configs, members);
    TellsAre(instances, |instances|);
    ConfigsPlaced(a, b, c, d, configs);
    NothingJoined(a, b, c, d);
    PlacedInOrder(a + (b + c) + d, routers, routers, configs, members, instances, s);
  }

  /** A growth of a sharded cluster does the same for the new shards and touches no config server. */
  lemma GrownInOrder(existing: seq<Instance>, added: seq<Instance>, s: nat)
    requires existing != [] && IsSharded(existing + added) && DistinctIds(added)
    requires OfKind(existing, QueryRouter) + OfKind(added, QueryRouter) != []
    ensures var t, routers := GrowTrace(existing, added), OfKind(existing, QueryRouter) + OfKind(added, QueryRouter);
            && InPhases(t) && (forall e :: e in t ==> !OfConfigs(e))
            && ShardPlaced(t, s, routers[0].id, OfShard(OfKind(added, Member), s))
  {
    var recent, routers := OfKind(added, QueryRouter), OfKind(existing, QueryRouter) + OfKind(added, QueryRouter);
    var configs, members := OfKind(existing, ConfigServer), OfKind(added, Member);
    var b, c, d := RoutersTrace(recent, configs), AllShardsTrace(routers, members), TellTrace(added, |added|);
    ShardedGrowth(existing, added);
    WorkRanks(recent, routers, configs, members);
    TellsAre(added, |added|);
    NothingJoined([], b, c, d);
    assert [] + (b + c) + d == GrowTrace(existing, added);
    PlacedInOrder(GrowTrace(existing, added), routers, recent, configs, members, added, s);
  }

  lemma NothingJoined(a: seq<Event>, b: seq<Event>, c: seq<Event>, d: seq<Event>)
    requires AllRank(b, 1) && AllRank(c, 2) && AllRank(d, 3) && forall e :: e in a ==> !e.Joined?
    ensures forall e :: e in a + (b + c) + d ==> !e.Joined?
    ensures forall e :: e in a + (b + c) + d && OfConfigs(e) ==> e in a
  {
  }

  /** A replica-set cluster is initiated on its first member, then awaited, and then every instance is told, in
      order; nothing else is done. */
  lemma CreatedWhole(instances: seq<Instance>)
    requires instances != [] && !IsSharded(instances)
    ensures var t := CreateTrace(instances);
            && |t| == 2 + |instances| && Begins(t[0], Whole, instances) && Waits(t[1], Whole, instances)
            && forall i :: 0 <= i < |instances| ==> t[2 + i] == Told(instances[i].id)
  {
    TellsAre(instances, |instances|);
  }

  /** Members join through the first existing one, are awaited, and are then told, in order. */
  lemma GrownWhole(existing: seq<Instance>, added: seq<Instance>)
    requires existing != [] && !IsSharded(existing + added)
    ensures var t := GrowTrace(existing, added);
            && |t| == 2 + |added| && t[0].Joined? && t[0].leader == existing[0].id && AddressesOf(t[0].addresses, added)
            && Waits(t[1], Whole, added)
            && forall i :: 0 <= i < |added| ==> t[2 + i] == Told(added[i].id)
  {
    TellsAre(added, |added|);
  }
}
