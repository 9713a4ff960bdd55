// The guest calls of a cluster assembly that goes through, in order, and what that order guarantees
// (controller/taskmanager.py, MongoDbClusterTasks.create_cluster and grow_cluster).

module AssemblyTrace {
  import opened Filters
  import opened Roles

  /** shard matters for the members of a sharded cluster; setName is what the guest reports. */
  datatype Instance = Instance(id: nat, kind: Kind, shard: nat, setName: string, visible: bool, address: string)

  /** Which replica set an initiation is for. */
  datatype Group = Configs | Shard(shard: nat) | Whole

  datatype Event =
    | Initiated(group: Group, leader: nat, addresses: seq<string>)
    | Ready(group: Group, addresses: seq<string>)
    | Joined(leader: nat, addresses: seq<string>)
    | Configured(router: nat, addresses: seq<string>)
    | Registered(shard: nat, router: nat, name: string, address: string)
    | Told(id: nat)

  function OfKind(instances: seq<Instance>, k: Kind): seq<Instance> { Filter(instances, (x: Instance) => x.kind == k) }

  function OfShard(members: seq<Instance>, shard: nat): seq<Instance> {
    Filter(members, (x: Instance) => x.shard == shard)
  }

  predicate IsSharded(instances: seq<Instance>) {
    OfKind(instances, ConfigServer) != [] || OfKind(instances, QueryRouter) != []
  }

  function Addresses(instances: seq<Instance>): seq<string> {
    seq(|instances|, i requires 0 <= i < |instances| => instances[i].address)
  }

  predicate AllVisible(instances: seq<Instance>) { forall x :: x in instances ==> x.visible }

  /** The shards of the first n members, each once, in order of appearance. */
  function ShardIds(members: seq<Instance>, n: nat): seq<nat>
    requires n <= |members|
  {
    if n == 0 then []
    else
      var before := ShardIds(members, n - 1);
      if members[n-1].shard in before then before else before + [members[n-1].shard]
  }

  // ---------- Traces ----------

  function InitTrace(group: Group, members: seq<Instance>): seq<Event> {
    if members == [] then []
    else [Initiated(group, members[0].id, Addresses(members)), Ready(group, Addresses(members))]
  }

  function RouterTrace(routers: seq<Instance>, addresses: seq<string>, n: nat): seq<Event>
    requires n <= |routers|
  {
    if n == 0 then [] else RouterTrace(routers, addresses, n - 1) + [Configured(routers[n-1].id, addresses)]
  }

  function ShardTrace(shard: nat, router: nat, members: seq<Instance>): seq<Event> {
    if members == [] then []
    else InitTrace(Shard(shard), members) + [Registered(shard, router, members[0].setName, members[0].address)]
  }

  function Flatten<T>(parts: seq<seq<T>>, n: nat): seq<T>
    requires n <= |parts|
  {
    if n == 0 then [] else Flatten(parts, n - 1) + parts[n-1]
  }

  /** The work on each of the shards. */
  function ShardParts(ids: seq<nat>, router: nat, members: seq<Instance>): seq<seq<Event>> {
    seq(|ids|, i requires 0 <= i < |ids| => ShardTrace(ids[i], router, OfShard(members, ids[i])))
  }

  function TellTrace(members: seq<Instance>, n: nat): seq<Event>
    requires n <= |members|
  {
    if n == 0 then [] else TellTrace(members, n - 1) + [Told(members[n-1].id)]
  }

  /** The shards of the given members, through the first of the routers. */
  function AllShardsTrace(routers: seq<Instance>, members: seq<Instance>): seq<Event> {
    if routers == [] then []
    else var ids := ShardIds(members, |members|); Flatten(ShardParts(ids, routers[0].id, members), |ids|)
  }

  function RoutersTrace(routers: seq<Instance>, configs: seq<Instance>): seq<Event> {
    RouterTrace(routers, Addresses(configs), |routers|)
  }

  /** Creation, up to the calls that tell the guests it is complete. */
  function CreateWork(instances: seq<Instance>): seq<Event> {
    if !IsSharded(instances) then InitTrace(Whole, instances)
    else
      var configs, routers := OfKind(instances, ConfigServer), OfKind(instances, QueryRouter);
      InitTrace(Configs, configs)
        + (RoutersTrace(routers, configs) + AllShardsTrace(routers, OfKind(instances, Member)))
  }

  function CreateTrace(instances: seq<Instance>): seq<Event> {
    CreateWork(instances) + TellTrace(instances, |instances|)
  }

  /** Growth of existing instances by added ones, up to the completion calls. */
  function GrowWork(existing: seq<Instance>, added: seq<Instance>): seq<Event> {
    if existing == [] then []
    else if !IsSharded(existing + added) then [Joined(existing[0].id, Addresses(added)), Ready(Whole, Addresses(added))]
    else
      var configs, routers := OfKind(existing, ConfigServer), OfKind(added, QueryRouter);
      RoutersTrace(routers, configs) + AllShardsTrace(OfKind(existing, QueryRouter) + routers, OfKind(added, Member))
  }

  function GrowTrace(existing: seq<Instance>, added: seq<Instance>): seq<Event> {
    GrowWork(existing, added) + TellTrace(added, |added|)
  }

  // ---------- What the traces guarantee ----------

  predicate AboutShard(e: Event, shard: nat) {
    match e
    case Initiated(g, _, _) => g == Shard(shard)
    case Ready(g, _) => g == Shard(shard)
    case Registered(s, _, _, _) => s == shard
    case _ => false
  }

  function About(shard: nat): Event -> bool { (e: Event) => AboutShard(e, shard) }

  function ForRouter(id: nat): Event -> bool { (e: Event) => e.Configured? && e.router == id }

  function Telling(id: nat): Event -> bool { (e: Event) => e.Told? && e.id == id }

  predicate DistinctIds(instances: seq<Instance>) {
    forall i, j :: 0 <= i < j < |instances| ==> instances[i].id != instances[j].id
  }

  lemma {:induction false} ShardIdsAre(members: seq<Instance>, n: nat)
    requires n <= |members|
    ensures Unrepeated(ShardIds(members, n))
    ensures forall s :: s in ShardIds(members, n) <==> exists i :: 0 <= i < n && members[i].shard == s
  {
    if n > 0 { ShardIdsAre(members, n - 1); }
  }

  /** Shards are taken in the order in which their first members appear. */
  lemma {:induction false} ShardIdsInOrder(members: seq<Instance>, n: nat, i: nat, j: nat)
    requires n <= |members| && i < j < |ShardIds(members, n)|
    ensures exists p :: 0 <= p < n && members[p].shard == ShardIds(members, n)[i]
                        && forall q :: 0 <= q < n && members[q].shard == ShardIds(members, n)[j] ==> p < q
  {
    var ids, before := ShardIds(members, n), ShardIds(members, n - 1);
    ShardIdsAre(members, n - 1);
    if j < |before| {
      ShardIdsInOrder(members, n - 1, i, j);
      var p :| 0 <= p < n - 1 && members[p].shard == before[i]
               && forall q :: 0 <= q < n - 1 && members[q].shard == before[j] ==> p < q;
      assert members[p].shard == ids[i];
    } else {
      assert before[i] in before && ids[j] !in before;
      var p :| 0 <= p < n - 1 && members[p].shard == before[i];
      assert forall q :: 0 <= q < n - 1 ==> members[q].shard in before;
    }
  }

  predicate Unrepeated(ids: seq<nat>) { forall i, j :: 0 <= i < j < |ids| ==> ids[i] != ids[j] }

  lemma ShardHasMembers(members: seq<Instance>, s: nat)
    ensures s in ShardIds(members, |members|) <==> OfShard(members, s) != []
  {
    ShardIdsAre(members, |members|);
    if i :| 0 <= i < |members| && members[i].shard == s {
      FilterMember(members, (x: Instance) => x.shard == s, members[i]);
    } else {
      FilterNone(members, (x: Instance) => x.shard == s);
    }
  }

  lemma {:induction false} FlattenNone<T>(parts: seq<seq<T>>, n: nat, g: T -> bool)
    requires n <= |parts| && forall i :: 0 <= i < n ==> Filter(parts[i], g) == []
    ensures Filter(Flatten(parts, n), g) == []
  {
    if n > 0 {
      FlattenNone(parts, n - 1, g);
      FilterJoin(Flatten(parts, n - 1), parts[n-1], g);
    }
  }

  /** A condition that holds of all of one part and of nothing else. */
  lemma {:induction false} FlattenPick<T>(parts: seq<seq<T>>, n: nat, g: T -> bool, k: nat)
    requires k < n <= |parts| && Filter(parts[k], g) == parts[k]
    requires forall i :: 0 <= i < n && i != k ==> Filter(parts[i], g) == []
    ensures Filter(Flatten(parts, n), g) == parts[k]
  {
    FilterJoin(Flatten(parts, n - 1), parts[n-1], g);
    if k == n - 1 { FlattenNone(parts, n - 1, g); } else { FlattenPick(parts, n - 1, g, k); }
  }

  lemma OneShardAbout(s: nat, router: nat, members: seq<Instance>, shard: nat)
    ensures Filter(ShardTrace(s, router, members), About(shard))
            == if s == shard then ShardTrace(s, router, members) else []
  {
    if s == shard { FilterAll(ShardTrace(s, router, members), About(shard)); }
    else { FilterNone(ShardTrace(s, router, members), About(shard)); }
  }

  /** Of all shard work, exactly initiation, readiness and registration concern one shard, in that
      order, once, for exactly its own members and through the first router. */
  lemma AllShardsAbout(routers: seq<Instance>, members: seq<Instance>, shard: nat)
    requires routers != []
    ensures Filter(AllShardsTrace(routers, members), About(shard))
            == ShardTrace(shard, routers[0].id, OfShard(members, shard))
  {
    var ids := ShardIds(members, |members|);
    var parts := ShardParts(ids, routers[0].id, members);
    forall i | 0 <= i < |ids| ensures Filter(parts[i], About(shard)) == if ids[i] == shard then parts[i] else [] {
      OneShardAbout(ids[i], routers[0].id, OfShard(members, ids[i]), shard);
    }
    ShardIdsAre(members, |members|);
    ShardHasMembers(members, shard);
    if k :| 0 <= k < |ids| && ids[k] == shard {
      FlattenPick(parts, |ids|, About(shard), k);
    } else {
      FlattenNone(parts, |ids|, About(shard));
    }
  }

  // ---------- Order ----------

  /** Config servers (or the only replica set), then routers, then shards, then completion. */
  function Rank(e: Event): nat {
    match e
    case Initiated(g, _, _) => if g.Shard? then 2 else 0
    case Ready(g, _) => if g.Shard? then 2 else 0
    case Joined(_, _) => 0
    case Configured(_, _) => 1
    case Registered(_, _, _, _) => 2
    case Told(_) => 3
  }

  predicate AllRank(t: seq<Event>, k: nat) { forall i :: 0 <= i < |t| ==> Rank(t[i]) == k }

  predicate Ordered(t: seq<Event>) { forall i, j :: 0 <= i < j < |t| ==> Rank(t[i]) <= Rank(t[j]) }

  lemma {:induction false} FlattenRank(parts: seq<seq<Event>>, n: nat, k: nat)
    requires n <= |parts| && forall i :: 0 <= i < n ==> AllRank(parts[i], k)
    ensures AllRank(Flatten(parts, n), k)
  {
    if n > 0 { FlattenRank(parts, n - 1, k); }
  }

  lemma WorkRanks(routers: seq<Instance>, all: seq<Instance>, configs: seq<Instance>, members: seq<Instance>)
    ensures AllRank(RoutersTrace(routers, configs), 1) && AllRank(AllShardsTrace(all, members), 2)
  {
    RoutersAre(routers, Addresses(configs), |routers|);
    if all != [] {
      var ids := ShardIds(members, |members|);
      FlattenRank(ShardParts(ids, all[0].id, members), |ids|, 2);
    }
  }

  /** Four parts of ascending rank are in order, and a condition on one rank picks from one part. */
  lemma PickPart(a: seq<Event>, b: seq<Event>, c: seq<Event>, d: seq<Event>, f: Event -> bool, k: nat)
    requires AllRank(a, 0) && AllRank(b, 1) && AllRank(c, 2) && AllRank(d, 3) && k <= 3
    requires forall e: Event :: f(e) ==> Rank(e) == k
    ensures Filter(a + (b + c) + d, f) == Filter(if k == 0 then a else if k == 1 then b else if k == 2 then c else d, f)
  {
    FilterJoin(a + (b + c), d, f);
    FilterJoin(a, b + c, f);
    FilterJoin(b, c, f);
    if k != 0 { FilterNone(a, f); }
    if k != 1 { FilterNone(b, f); }
    if k != 2 { FilterNone(c, f); }
    if k != 3 { FilterNone(d, f); }
  }

  lemma PartsOrdered(a: seq<Event>, b: seq<Event>, c: seq<Event>, d: seq<Event>)
    requires AllRank(a, 0) && AllRank(b, 1) && AllRank(c, 2) && AllRank(d, 3)
    ensures Ordered(a + (b + c) + d)
  {
    var bc, abc := b + c, a + (b + c);
    assert forall i :: 0 <= i < |bc| ==> 1 <= Rank(bc[i]) <= 2;
    assert forall i :: 0 <= i < |abc| ==> Rank(abc[i]) <= 2;
    assert Ordered(bc);
    assert Ordered(abc);
  }

  lemma {:induction false} RoutersAre(routers: seq<Instance>, addresses: seq<string>, n: nat)
    requires n <= |routers|
    ensures |RouterTrace(routers, addresses, n)| == n
    ensures forall i :: 0 <= i < n ==> RouterTrace(routers, addresses, n)[i] == Configured(routers[i].id, addresses)
  {
    if n > 0 { RoutersAre(routers, addresses, n - 1); }
  }

  lemma {:induction false} TellsAre(members: seq<Instance>, n: nat)
    requires n <= |members|
    ensures |TellTrace(members, n)| == n
    ensures forall i :: 0 <= i < n ==> TellTrace(members, n)[i] == Told(members[i].id)
  {
    if n > 0 { TellsAre(members, n - 1); }
  }

  lemma {:induction false} TellOnce(members: seq<Instance>, n: nat, id: nat)
    requires n <= |members| && DistinctIds(members)
    ensures Filter(TellTrace(members, n), Telling(id))
            == if exists i :: 0 <= i < n && members[i].id == id then [Told(id)] else []
  {
    if n > 0 {
      var last := [Told(members[n-1].id)];
      TellOnce(members, n - 1, id);
      FilterJoin(TellTrace(members, n - 1), last, Telling(id));
      OneTold(members[n-1].id, id);
    }
  }

  lemma OneTold(told: nat, id: nat)
    ensures Filter([Told(told)], Telling(id)) == if told == id then [Told(told)] else []
  {
  }

  lemma {:induction false} ConfigureOnce(routers: seq<Instance>, addresses: seq<string>, n: nat, id: nat)
    requires n <= |routers| && DistinctIds(routers)
    ensures Filter(RouterTrace(routers, addresses, n), ForRouter(id))
            == if exists i :: 0 <= i < n && routers[i].id == id then [Configured(id, addresses)] else []
  {
    if n > 0 {
      var last := [Configured(routers[n-1].id, addresses)];
      ConfigureOnce(routers, addresses, n - 1, id);
      FilterJoin(RouterTrace(routers, addresses, n - 1), last, ForRouter(id));
      OneConfigured(routers[n-1].id, addresses, id);
    }
  }

  lemma OneConfigured(router: nat, addresses: seq<string>, id: nat)
    ensures var last := [Configured(router, addresses)];
            Filter(last, ForRouter(id)) == if router == id then last else []
  {
  }

  // ---------- Whole traces ----------

  /** The config servers come first, the routers next, then the shards and last the completion calls;
      each router is configured once with all config servers, each shard is initiated with exactly its own
      members, waited for and registered once through the first router, and each instance is told once. */
  ghost predicate InOrder(t: seq<Event>, routers: seq<Instance>, recent: seq<Instance>, configs: seq<Instance>,
                          members: seq<Instance>, told: seq<Instance>)
    requires routers != []
  {
    && Ordered(t)
    && (forall s: nat :: Filter(t, About(s)) == ShardTrace(s, routers[0].id, OfShard(members, s)))
    && (forall r :: r in recent ==> Filter(t, ForRouter(r.id)) == [Configured(r.id, Addresses(configs))])
    && (forall x :: x in told ==> Filter(t, Telling(x.id)) == [Told(x.id)])
  }

  lemma PartsInOrder(a: seq<Event>, routers: seq<Instance>, recent: seq<Instance>, configs: seq<Instance>,
                     members: seq<Instance>, told: seq<Instance>)
    requires routers != [] && DistinctIds(recent) && DistinctIds(told) && AllRank(a, 0)
    ensures InOrder(a + (RoutersTrace(recent, configs) + AllShardsTrace(routers, members)) + TellTrace(told, |told|),
                    routers, recent, configs, members, told)
  {
    var b, c, d := RoutersTrace(recent, configs), AllShardsTrace(routers, members), TellTrace(told, |told|);
    WorkRanks(recent, routers, configs, members);
    TellsAre(told, |told|);
    PartsOrdered(a, b, c, d);
    forall s: nat ensures Filter(a + (b + c) + d, About(s)) == ShardTrace(s, routers[0].id, OfShard(members, s)) {
      ShardPart(a, b, c, d, routers, members, s);
    }
    forall r | r in recent ensures Filter(a + (b + c) + d, ForRouter(r.id)) == [Configured(r.id, Addresses(configs))] {
      RouterPart(a, b, c, d, recent, configs, r);
    }
    forall x | x in told ensures Filter(a + (b + c) + d, Telling(x.id)) == [Told(x.id)] {
      TellPart(a, b, c, d, told, x);
    }
  }

  lemma ShardPart(a: seq<Event>, b: seq<Event>, c: seq<Event>, d: seq<Event>, routers: seq<Instance>,
                  members: seq<Instance>,
                  s: nat)
    requires AllRank(a, 0) && AllRank(b, 1) && AllRank(c, 2) && AllRank(d, 3)
    requires routers != [] && c == AllShardsTrace(routers, members)
    ensures Filter(a + (b + c) + d, About(s)) == ShardTrace(s, routers[0].id, OfShard(members, s))
  {
    PickPart(a, b, c, d, About(s), 2);
    AllShardsAbout(routers, members, s);
  }

  lemma RouterPart(a: seq<Event>, b: seq<Event>, c: seq<Event>, d: seq<Event>, recent: seq<Instance>,
                   configs: seq<Instance>,
                   r: Instance)
    requires AllRank(a, 0) && AllRank(b, 1) && AllRank(c, 2) && AllRank(d, 3)
    requires DistinctIds(recent) && r in recent && b == RoutersTrace(recent, configs)
    ensures Filter(a + (b + c) + d, ForRouter(r.id)) == [Configured(r.id, Addresses(configs))]
  {
    PickPart(a, b, c, d, ForRouter(r.id), 1);
    ConfigureOnce(recent, Addresses(configs), |recent|, r.id);
  }

  lemma TellPart(a: seq<Event>, b: seq<Event>, c: seq<Event>, d: seq<Event>, told: seq<Instance>, x: Instance)
    requires AllRank(a, 0) && AllRank(b, 1) && AllRank(c, 2) && AllRank(d, 3)
    requires DistinctIds(told) && x in told && d == TellTrace(told, |told|)
    ensures Filter(a + (b + c) + d, Telling(x.id)) == [Told(x.id)]
  {
    PickPart(a, b, c, d, Telling(x.id), 3);
    TellOnce(told, |told|, x.id);
  }

  /** A completed creation of a sharded cluster. */
  lemma ShardedCreation(instances: seq<Instance>)
    requires DistinctIds(instances)
    requires OfKind(instances, ConfigServer) != [] && OfKind(instances, QueryRouter) != []
    ensures var configs, routers := OfKind(instances, ConfigServer), OfKind(instances, QueryRouter);
            && InitTrace(Configs, configs) <= CreateTrace(instances)
            && InOrder(CreateTrace(instances), routers, routers, configs, OfKind(instances, Member), instances)
  {
    var configs, routers := OfKind(instances, ConfigServer), OfKind(instances, QueryRouter);
    KindDistinct(instances, QueryRouter);
    PartsInOrder(InitTrace(Configs, configs), routers, routers, configs, OfKind(instances, Member), instances);
  }

  lemma {:induction false} KindDistinct(instances: seq<Instance>, k: Kind)
    requires DistinctIds(instances)
    ensures DistinctIds(OfKind(instances, k))
  {
    if instances != [] {
      KindDistinct(instances[1..], k);
      var rest := OfKind(instances[1..], k);
      forall j | 0 <= j < |rest| ensures rest[j].id != instances[0].id {
        FilterMember(instances[1..], (x: Instance) => x.kind == k, rest[j]);
      }
    }
  }

  /** A completed growth of a sharded cluster does the same work for the added instances alone. */
  lemma ShardedGrowth(existing: seq<Instance>, added: seq<Instance>)
    requires existing != [] && IsSharded(existing + added) && DistinctIds(added)
    requires OfKind(existing, QueryRouter) + OfKind(added, QueryRouter) != []
    ensures InOrder(GrowTrace(existing, added), OfKind(existing, QueryRouter) + OfKind(added, QueryRouter),
                    OfKind(added, QueryRouter), OfKind(existing, ConfigServer), OfKind(added, Member), added)
  {
    var recent, routers := OfKind(added, QueryRouter), OfKind(existing, QueryRouter) + OfKind(added, QueryRouter);
    var configs, members := OfKind(existing, ConfigServer), OfKind(added, Member);
    KindDistinct(added, QueryRouter);
    PartsInOrder([], routers, recent, configs, members, added);
    NothingFirst(RoutersTrace(recent, configs) + AllShardsTrace(routers, members));
  }

  lemma NothingFirst(t: seq<Event>)
    ensures [] + t == t
  {
  }
}
