// Creating and growing clusters (controller/api.py: _create_sharded, _create_sharded_instances,
// _grow_sharded and the replica-set branch of grow).

module ClusterGrowth {
  import opened Roles
  import opened Topology
  import ShardGrouping
  import ShardNames

  datatype Task = NoTask | Building | Growing | OtherTask

  /** The node type of a grow item: none, one name, or a list of names. */
  datatype TypeField = NoType | One(t: string) | Many(ts: seq<string>)

  datatype GrowItem = GrowItem(item: ShardGrouping.Item, nodeType: TypeField)

  datatype Role = Replica | Router | Unsupported | Malformed

  /** _instance_type and the three lists built from it. */
  function RoleOf(it: GrowItem): Role {
    match it.nodeType
    case NoType => Replica
    case One(t) => RoleNamed(t)
    case Many(ts) => if |ts| == 1 then RoleNamed(ts[0]) else Malformed
  }

  function RoleNamed(t: string): Role {
    if t == "replica" || t == "member" then Replica else if t == "query_router" then Router else Unsupported
  }

  function Replicas(items: seq<GrowItem>, n: nat): seq<ShardGrouping.Item>
    requires n <= |items|
  {
    if n == 0 then []
    else Replicas(items, n - 1) + (if RoleOf(items[n-1]).Replica? then [items[n-1].item] else [])
  }

  function Routers(items: seq<GrowItem>, n: nat): nat
    requires n <= |items|
  {
    if n == 0 then 0 else Routers(items, n - 1) + (if RoleOf(items[n-1]).Router? then 1 else 0)
  }

  /** The type of an item is written as this name. */
  predicate HasType(it: GrowItem, t: string) { it.nodeType == One(t) || it.nodeType == Many([t]) }

  predicate WantsMember(it: GrowItem) { it.nodeType == NoType || HasType(it, "member") || HasType(it, "replica") }

  predicate WantsRouter(it: GrowItem) { HasType(it, "query_router") }

  /** Which types make members, which make routers, and which are refused. */
  lemma RoleByType(it: GrowItem)
    ensures RoleOf(it).Replica? <==> WantsMember(it)
    ensures RoleOf(it).Router? <==> WantsRouter(it)
    ensures RoleOf(it).Malformed? <==> it.nodeType.Many? && |it.nodeType.ts| != 1
  {
    var member, replica, router := "member", "replica", "query_router";
    assert |member| == 6 && |replica| == 7 && |router| == 12;
    if it.nodeType.Many? && |it.nodeType.ts| == 1 { assert it.nodeType.ts == [it.nodeType.ts[0]]; }
  }

  /** How many of the first n items ask for a router. */
  function RouterItems(items: seq<GrowItem>, n: nat): set<nat>
    requires n <= |items|
  {
    set i: nat | 0 <= i < n && WantsRouter(items[i])
  }

  lemma {:induction false} RoutersCounted(items: seq<GrowItem>, n: nat)
    requires n <= |items|
    ensures Routers(items, n) == |RouterItems(items, n)|
  {
    if n == 0 {
      assert RouterItems(items, 0) == {};
    } else {
      RoutersCounted(items, n - 1);
      RoleByType(items[n-1]);
      var before, all := RouterItems(items, n - 1), RouterItems(items, n);
      assert all == if WantsRouter(items[n-1]) then before + {n - 1} else before;
    }
  }

  /** The members to group are the items that ask for one, in order. */
  lemma {:induction false} ReplicasAre(items: seq<GrowItem>, n: nat, it: ShardGrouping.Item)
    requires n <= |items|
    ensures it in Replicas(items, n) <==> exists i :: 0 <= i < n && WantsMember(items[i]) && items[i].item == it
  {
    if n > 0 {
      ReplicasAre(items, n - 1, it);
      RoleByType(items[n-1]);
      if it in Replicas(items, n - 1) {
        var i :| 0 <= i < n - 1 && WantsMember(items[i]) && items[i].item == it;
      }
    }
  }

  /** What an accepted grouping of the replica items is. */
  ghost predicate Grouped(items: seq<ShardGrouping.Item>, groups: seq<seq<ShardGrouping.Item>>) {
    || (items == [] && groups == [])
    || (items != [] && groups == [items] && forall it :: it in items ==> ShardGrouping.Unlabelled(it))
    || ((forall it :: it in items ==> !ShardGrouping.Unlabelled(it))
        && exists owner :: ShardGrouping.ComponentGrouping(items, groups, owner))
  }

  function Sizes(groups: seq<seq<ShardGrouping.Item>>): seq<nat> {
    seq(|groups|, g requires 0 <= g < |groups| => |groups[g]|)
  }

  lemma {:induction false} TotalIsSizeSum(groups: seq<seq<ShardGrouping.Item>>, m: nat)
    requires m <= |groups|
    ensures Total(Sizes(groups), m) == ShardGrouping.SizeSum(groups, m)
  {
    if m > 0 { TotalIsSizeSum(groups, m - 1); }
  }

  /** One instance per requested replica item, whatever the grouping. */
  lemma OneInstancePerItem(items: seq<ShardGrouping.Item>, groups: seq<seq<ShardGrouping.Item>>)
    requires Grouped(items, groups)
    ensures Total(Sizes(groups), |Sizes(groups)|) == |items|
  {
    TotalIsSizeSum(groups, |groups|);
    if owner :| ShardGrouping.ComponentGrouping(items, groups, owner) {
      ShardGrouping.GroupsKeepMembers(items, groups, owner);
    } else if items != [] {
      assert ShardGrouping.SizeSum(groups, 0) == 0;
      assert ShardGrouping.SizeSum(groups, 1) == |groups[0]|;
    }
  }

  /** The items of each role; an item with another type, or not exactly one, refuses the request. */
  method SplitByRole(items: seq<GrowItem>) returns (ok: bool, replicas: seq<ShardGrouping.Item>, routers: nat)
    ensures ok <==> GoodRoles(items)
    ensures ok ==> replicas == Replicas(items, |items|) && routers == Routers(items, |items|)
  {
    replicas, routers := [], 0;
    for n := 0 to |items|
      invariant replicas == Replicas(items, n) && routers == Routers(items, n)
      invariant forall i :: 0 <= i < n ==> RoleOf(items[i]).Replica? || RoleOf(items[i]).Router?
    {
      match RoleOf(items[n])
      case Replica => replicas := replicas + [items[n].item];
      case Router => routers := routers + 1;
      case Unsupported => return false, replicas, routers;
      case Malformed => return false, replicas, routers;
    }
    ok := true;
  }

  ghost predicate Mixed(items: seq<ShardGrouping.Item>) {
    (exists it :: it in items && ShardGrouping.Unlabelled(it))
      && (exists it :: it in items && !ShardGrouping.Unlabelled(it))
  }

  ghost predicate TooSmall(groups: seq<seq<ShardGrouping.Item>>) {
    exists g :: 0 <= g < |groups| && |groups[g]| < MIN_MEMBERS
  }

  /** No item ties two groups, and labels are on all items or on none. */
  ghost predicate Groupable(items: seq<ShardGrouping.Item>) {
    !ShardGrouping.SomeTies(items, |items|) && !Mixed(items)
  }

  /** The replica items grouped into shards: exactly when they can be, and no shard is too small. */
  method GroupIntoShards(replicas: seq<ShardGrouping.Item>) returns (ok: bool, groups: seq<seq<ShardGrouping.Item>>)
    ensures ok <==> Groupable(replicas) && !TooSmall(groups)
    ensures Groupable(replicas) ==> Grouped(replicas, groups)
  {
    var outcome := ShardGrouping.GroupShardInstances(replicas);
    groups := [];
    if !outcome.Groups? { return false, groups; }
    groups := outcome.groups;
    for g := 0 to |groups|
      invariant forall h :: 0 <= h < g ==> |groups[h]| >= MIN_MEMBERS
    {
      if |groups[g]| < MIN_MEMBERS { return false, groups; }
    }
    ok := true;
  }

  ghost predicate GoodRoles(items: seq<GrowItem>) {
    forall i :: 0 <= i < |items| ==> RoleOf(items[i]).Replica? || RoleOf(items[i]).Router?
  }

  /** A grow request is accepted exactly when this holds; `groups` is its grouping, where it has one. */
  ghost predicate Acceptable(items: seq<GrowItem>, groups: seq<seq<ShardGrouping.Item>>, otherChecksPass: bool) {
    && items != [] && GoodRoles(items) && otherChecksPass
    && Groupable(Replicas(items, |items|)) && !TooSmall(groups)
  }

  /** _create_sharded_instances up to the first instance; the remaining validations and the quotas are
      one answer. */
  method Validate(items: seq<GrowItem>, otherChecksPass: bool)
    returns (ok: bool, groups: seq<seq<ShardGrouping.Item>>, routers: nat)
    ensures ok <==> Acceptable(items, groups, otherChecksPass)
    ensures GoodRoles(items) && Groupable(Replicas(items, |items|)) ==> Grouped(Replicas(items, |items|), groups)
    ensures ok ==> routers == Routers(items, |items|)
  {
    var replicas;
    groups := [];
    ok, replicas, routers := SplitByRole(items);
    if ok {
      ok, groups := GroupIntoShards(replicas);
      RolesSplit(items, |items|);
      if ok {
        OneInstancePerItem(replicas, groups);
        ok := (groups != [] || routers > 0) && otherChecksPass;
      }
    }
  }

  lemma {:induction false} RolesSplit(items: seq<GrowItem>, n: nat)
    requires n <= |items| && forall i :: 0 <= i < n ==> RoleOf(items[i]).Replica? || RoleOf(items[i]).Router?
    ensures |Replicas(items, n)| + Routers(items, n) == n
  {
    if n > 0 { RolesSplit(items, n - 1); }
  }

  /** An accepted grow request gets exactly one new instance for each of its items. */
  lemma GrowthMatchesRequest(items: seq<GrowItem>, groups: seq<seq<ShardGrouping.Item>>, rows: seq<Row>, first: nat,
                             shard: nat)
    requires GoodRoles(items)
    requires Grouped(Replicas(items, |items|), groups)
    ensures |GrownRows(rows, Sizes(groups), Routers(items, |items|), first, shard)| == |rows| + |items|
  {
    var sizes, routers := Sizes(groups), Routers(items, |items|);
    RolesSplit(items, |items|);
    OneInstancePerItem(Replicas(items, |items|), groups);
    GrownSize(rows, sizes, routers, first, shard);
  }

  lemma GrownSize(rows: seq<Row>, sizes: seq<nat>, routers: nat, first: nat, shard: nat)
    ensures |GrownRows(rows, sizes, routers, first, shard)| == |rows| + Total(sizes, |sizes|) + routers
  {
    GrownParts(rows, sizes, routers, first, shard);
    GroupIds(sizes, |sizes|, first, shard, NextNumber(rows));
    PlainRowsAre(first + Total(sizes, |sizes|), QueryRouter, routers);
  }

  lemma NextGroup(rows: seq<Row>, sizes: seq<nat>, g: nat, first: nat, shard: nat, number: nat)
    requires g < |sizes|
    ensures rows + GroupRows(sizes, g, first, shard, number)
              + ShardRows(first + Total(sizes, g), shard + g, number + g, sizes[g])
            == rows + GroupRows(sizes, g + 1, first, shard, number)
  {
  }

  lemma GrownByType(items: seq<GrowItem>, groups: seq<seq<ShardGrouping.Item>>, rows: seq<Row>, first: nat, shard: nat)
    requires GoodRoles(items) && Grouped(Replicas(items, |items|), groups)
    ensures var rows' := GrownRows(rows, Sizes(groups), Routers(items, |items|), first, shard);
            && |OfKind(rows', QueryRouter)| == |OfKind(rows, QueryRouter)| + |RouterItems(items, |items|)|
            && |rows'| == |rows| + |items|
    ensures forall i :: 0 <= i < |items| ==> WantsMember(items[i]) || WantsRouter(items[i])
  {
    RoutersCounted(items, |items|);
    GrowthMatchesRequest(items, groups, rows, first, shard);
    GrownKind(rows, Sizes(groups), Routers(items, |items|), first, shard, QueryRouter);
    forall i | 0 <= i < |items| ensures WantsMember(items[i]) || WantsRouter(items[i]) { RoleByType(items[i]); }
  }

  datatype Result = Busy | Refused | Accepted

  class Cluster {
    var rows: seq<Row>
    var nextId: nat              // instance and shard ids are fresh, as generated UUIDs are
    var nextShard: nat
    var status: Task

    ghost predicate Valid()
      reads this
    {
      Fresh(rows, nextId, nextShard)
    }

    constructor (rows: seq<Row>, nextId: nat, nextShard: nat)
      requires Fresh(rows, nextId, nextShard)
      ensures Valid() && this.rows == rows && status == Building
    {
      this.rows, this.nextId, this.nextShard, status := rows, nextId, nextShard, Building;
    }

    /** _grow_sharded: a refused request changes no row and clears the task; an accepted one adds whole
        shards with fresh ids, numbered after the count of live shards, and the requested routers. */
    method GrowSharded(items: seq<GrowItem>, otherChecksPass: bool)
      returns (r: Result, ghost groups: seq<seq<ShardGrouping.Item>>)
      requires Valid() && IsSharded(rows)
      modifies this
      ensures Valid()
      ensures r.Busy? <==> old(status) != NoTask
      ensures !r.Accepted? ==> rows == old(rows) && status == old(status)
      ensures r.Accepted? <==> old(status) == NoTask && Acceptable(items, groups, otherChecksPass)
      ensures !r.Busy? && GoodRoles(items) && Groupable(Replicas(items, |items|)) ==>
                Grouped(Replicas(items, |items|), groups)
      ensures r.Accepted? ==>
        var sizes, routers := Sizes(groups), Routers(items, |items|);
        && Grouped(Replicas(items, |items|), groups) && status == Growing
        && Completes(old(rows), Grow(sizes, routers, old(nextId), old(nextShard)), rows)
      // Read off the types: as many routers as ask for one, one instance to an item, and no other type.
      ensures r.Accepted? ==>
                && |OfKind(rows, QueryRouter)| == |OfKind(old(rows), QueryRouter)| + |RouterItems(items, |items|)|
                && |rows| == |old(rows)| + |items|
                && forall i :: 0 <= i < |items| ==> WantsMember(items[i]) || WantsRouter(items[i])
    {
      groups := [];
      if status != NoTask { return Busy, groups; }
      var ok, made, routers := Validate(items, otherChecksPass);
      groups := made;
      if !ok {
        status := NoTask;
        return Refused, groups;
      }
      GrowCompletes(rows, Sizes(made), routers, nextId, nextShard);
      GrownByType(items, made, rows, nextId, nextShard);
      AddAll(made, routers);
      status := Growing;
      r := Accepted;
    }

    method AddAll(groups: seq<seq<ShardGrouping.Item>>, routers: nat)
      modifies this`rows, this`nextId, this`nextShard
      ensures rows == GrownRows(old(rows), Sizes(groups), routers, old(nextId), old(nextShard))
      ensures nextId == old(nextId) + Total(Sizes(groups), |groups|) + routers && nextShard == old(nextShard) + |groups|
    {
      AddShards(groups, NextNumber(rows));
      AddRouters(routers);
    }

    /** Every group becomes one shard with a fresh id and the next name. */
    method AddShards(groups: seq<seq<ShardGrouping.Item>>, number: nat)
      modifies this`rows, this`nextId, this`nextShard
      ensures var sizes := Sizes(groups);
              && rows == old(rows) + GroupRows(sizes, |sizes|, old(nextId), old(nextShard), number)
              && nextId == old(nextId) + Total(sizes, |sizes|) && nextShard == old(nextShard) + |sizes|
    {
      ghost var sizes := Sizes(groups);
      for g := 0 to |groups|
        invariant rows == old(rows) + GroupRows(sizes, g, old(nextId), old(nextShard), number)
        invariant nextId == old(nextId) + Total(sizes, g) && nextShard == old(nextShard) + g
      {
        NextGroup(old(rows), sizes, g, old(nextId), old(nextShard), number);
        AddMembers(number + g, |groups[g]|);
        nextShard := nextShard + 1;
      }
    }

    method AddMembers(number: nat, n: nat)
      modifies this`rows, this`nextId
      ensures rows == old(rows) + ShardRows(old(nextId), nextShard, number, n) && nextId == old(nextId) + n
    {
      for i := 0 to n
        invariant rows == old(rows) + ShardRows(old(nextId), nextShard, number, i) && nextId == old(nextId) + i
      {
        rows := rows + [Row(nextId, Member, nextShard, number)];
        nextId := nextId + 1;
      }
    }

    method AddRouters(n: nat)
      modifies this`rows, this`nextId
      ensures rows == old(rows) + PlainRows(old(nextId), QueryRouter, n) && nextId == old(nextId) + n
    {
      for i := 0 to n
        invariant rows == old(rows) + PlainRows(old(nextId), QueryRouter, i) && nextId == old(nextId) + i
      {
        rows := rows + [Row(nextId, QueryRouter, 0, 0)];
        nextId := nextId + 1;
      }
    }

    /** The replica-set branch of grow. The task is set before the instances are validated, and a
        refusal at that point leaves it set. */
    method GrowReplica(count: nat, sameFlavor: bool, otherChecksPass: bool) returns (r: Result)
      requires Valid() && !IsSharded(rows)
      modifies this
      ensures Valid()
      ensures r.Busy? <==> old(status) != NoTask
      ensures r.Accepted? <==> old(status) == NoTask && count > 0 && old(rows) != [] && sameFlavor && otherChecksPass
      ensures !r.Accepted? ==> rows == old(rows)
      ensures r.Refused? ==> status == if count > 0 && old(rows) != [] && sameFlavor then Growing else NoTask
      ensures r.Accepted? ==> Completes(old(rows), Step.GrowReplica(count, old(nextId)), rows) && status == Growing
    {
      if status != NoTask { return Busy; }
      if count == 0 || rows == [] || !sameFlavor { return Refused; }
      status := Growing;
      if !otherChecksPass { return Refused; }
      PlainRowsAre(nextId, Member, count);
      rows := rows + PlainRows(nextId, Member, count);
      nextId := nextId + count;
      nextShard := nextShard + 1;
      r := Accepted;
    }
  }

  /** _create_sharded: a request below one of the minimums makes nothing; otherwise all rows of one
      shard, its config servers and its routers are made. */
  method CreateSharded(members: nat, configServers: nat, routers: nat, otherChecksPass: bool) returns (c: Cluster?)
    ensures c == null <==> (members < MIN_MEMBERS || configServers < MIN_CONFIG_SERVERS
                            || routers < MIN_ROUTERS || !otherChecksPass)
    ensures c != null ==> fresh(c) && c.Valid() && ShardedInv(c.rows) && c.status == Building
    ensures c != null ==> c.rows == CreatedRows(members, configServers, routers)
  {
    if members < MIN_MEMBERS || configServers < MIN_CONFIG_SERVERS || routers < MIN_ROUTERS || !otherChecksPass {
      return null;
    }
    var made := ShardRows(0, 0, 1, members);
    made := made + PlainRows(members, ConfigServer, configServers);
    made := made + PlainRows(members + configServers, QueryRouter, routers);
    CreateMakes(members, configServers, routers);
    c := new Cluster(made, members + configServers + routers, 1);
  }

  lemma GrowCompletes(rows: seq<Row>, sizes: seq<nat>, routers: nat, first: nat, shard: nat)
    requires IsSharded(rows) && Fresh(rows, first, shard)
    requires forall g :: 0 <= g < |sizes| ==> sizes[g] >= MIN_MEMBERS
    ensures var rows' := GrownRows(rows, sizes, routers, first, shard);
            && Completes(rows, Grow(sizes, routers, first, shard), rows')
            && Fresh(rows', first + Total(sizes, |sizes|) + routers, shard + |sizes|)
  {
    GrownFresh(rows, sizes, routers, first, shard);
  }

  lemma GrownFresh(rows: seq<Row>, sizes: seq<nat>, routers: nat, first: nat, shard: nat)
    requires Fresh(rows, first, shard)
    ensures Fresh(GrownRows(rows, sizes, routers, first, shard),
                  first + Total(sizes, |sizes|) + routers, shard + |sizes|)
  {
    GrownParts(rows, sizes, routers, first, shard);
    AllFresh(rows, sizes, routers, first, shard, NextNumber(rows));
  }

  lemma GrownParts(rows: seq<Row>, sizes: seq<nat>, routers: nat, first: nat, shard: nat)
    ensures GrownRows(rows, sizes, routers, first, shard)
            == rows + GroupRows(sizes, |sizes|, first, shard, NextNumber(rows))
               + PlainRows(first + Total(sizes, |sizes|), QueryRouter, routers)
  {
  }

  lemma AllFresh(rows: seq<Row>, sizes: seq<nat>, routers: nat, first: nat, shard: nat, number: nat)
    requires Fresh(rows, first, shard)
    ensures var next := first + Total(sizes, |sizes|);
            Fresh(rows + GroupRows(sizes, |sizes|, first, shard, number) + PlainRows(next, QueryRouter, routers),
                  next + routers, shard + |sizes|)
  {
    var next := first + Total(sizes, |sizes|);
    var added, last := GroupRows(sizes, |sizes|, first, shard, number), PlainRows(next, QueryRouter, routers);
    GroupFresh(sizes, |sizes|, first, shard, number);
    FreshJoin(rows, first, shard, added, next, shard + |sizes|);
    RoutersFresh(next, routers, shard + |sizes|);
    FreshJoin(rows + added, next, shard + |sizes|, last, next + routers, shard + |sizes|);
  }

  lemma FreshJoin(a: seq<Row>, first: nat, shard: nat, b: seq<Row>, first': nat, shard': nat)
    requires Fresh(a, first, shard) && first <= first' && shard <= shard' && Fresh(b, first', shard')
    ensures Fresh(a + b, first', shard')
  {
  }

  lemma RoutersFresh(first: nat, n: nat, shard: nat)
    ensures Fresh(PlainRows(first, QueryRouter, n), first + n, shard)
  {
    PlainRowsAre(first, QueryRouter, n);
  }

  lemma {:induction false} GroupFresh(sizes: seq<nat>, m: nat, first: nat, shard: nat, number: nat)
    requires m <= |sizes|
    ensures Fresh(GroupRows(sizes, m, first, shard, number), first + Total(sizes, m), shard + m)
  {
    if m > 0 {
      var next, own := first + Total(sizes, m - 1), number + m - 1;
      GroupFresh(sizes, m - 1, first, shard, number);
      ShardRowsAre(next, shard + m - 1, own, sizes[m-1]);
      FreshJoin(GroupRows(sizes, m - 1, first, shard, number), next, shard + m - 1,
                ShardRows(next, shard + m - 1, own, sizes[m-1]), first + Total(sizes, m), shard + m);
    }
  }
}
