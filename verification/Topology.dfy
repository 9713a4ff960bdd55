// The rows of a cluster and what every completed operation does to them
// (controller/api.py: create, grow and shrink of sharded and replica-set clusters).

module Topology {
  import opened Filters
  import opened Roles

  const MIN_MEMBERS := 2
  const MIN_CONFIG_SERVERS := 2
  const MIN_ROUTERS := 1

  /** An instance row. Shard and number matter for the members of a sharded cluster only; the shard's
      replica-set name is "rs" followed by the number. */
  datatype Row = Row(id: nat, kind: Kind, shard: nat, number: nat)

  predicate IsSharded(rows: seq<Row>) { exists r :: r in rows && r.kind != Member }

  function Ids(rows: seq<Row>): set<nat> { set r | r in rows :: r.id }

  function KindIs(k: Kind): Row -> bool { (r: Row) => r.kind == k }

  function ShardIs(shard: nat): Row -> bool { (r: Row) => r.kind == Member && r.shard == shard }

  function NotIn(ids: set<nat>): Row -> bool { (r: Row) => r.id !in ids }

  function OfKind(rows: seq<Row>, k: Kind): seq<Row> { Filter(rows, KindIs(k)) }

  function OfShard(rows: seq<Row>, shard: nat): seq<Row> { Filter(rows, ShardIs(shard)) }

  /** The rows left after removing the requested instances. */
  function Without(rows: seq<Row>, ids: set<nat>): seq<Row> { Filter(rows, NotIn(ids)) }

  predicate DistinctIds(rows: seq<Row>) { forall i, j :: 0 <= i < j < |rows| ==> rows[i].id != rows[j].id }

  function Shards(rows: seq<Row>): set<nat> { set r | r in rows && r.kind == Member :: r.shard }

  /** The number of the next shard: one above the count of live ones. */
  function NextNumber(rows: seq<Row>): nat { |Shards(rows)| + 1 }

  // ---------- Invariants ----------

  ghost predicate ShardedInv(rows: seq<Row>) {
    && DistinctIds(rows)
    && |OfKind(rows, ConfigServer)| >= MIN_CONFIG_SERVERS
    && |OfKind(rows, QueryRouter)| >= MIN_ROUTERS
    && (exists s :: OfShard(rows, s) != [])
    && (forall s :: OfShard(rows, s) != [] ==> |OfShard(rows, s)| >= MIN_MEMBERS)
  }

  predicate ReplicaInv(rows: seq<Row>) {
    DistinctIds(rows) && |rows| >= MIN_MEMBERS && !IsSharded(rows)
  }

  // ---------- Completed operations ----------

  /** n members of one new shard. */
  function ShardRows(first: nat, shard: nat, number: nat, n: nat): seq<Row> {
    if n == 0 then [] else ShardRows(first, shard, number, n - 1) + [Row(first + n - 1, Member, shard, number)]
  }

  function Total(sizes: seq<nat>, m: nat): nat
    requires m <= |sizes|
  {
    if m == 0 then 0 else Total(sizes, m - 1) + sizes[m-1]
  }

  /** The members of the first m new shards: fresh ids and shard ids, names numbered from `number`. */
  function GroupRows(sizes: seq<nat>, m: nat, first: nat, shard: nat, number: nat): seq<Row>
    requires m <= |sizes|
  {
    if m == 0 then []
    else GroupRows(sizes, m - 1, first, shard, number)
         + ShardRows(first + Total(sizes, m - 1), shard + m - 1, number + m - 1, sizes[m-1])
  }

  function PlainRows(first: nat, kind: Kind, n: nat): seq<Row> {
    if n == 0 then [] else PlainRows(first, kind, n - 1) + [Row(first + n - 1, kind, 0, 0)]
  }

  function GrownRows(rows: seq<Row>, sizes: seq<nat>, routers: nat, first: nat, shard: nat): seq<Row> {
    rows + GroupRows(sizes, |sizes|, first, shard, NextNumber(rows))
      + PlainRows(first + Total(sizes, |sizes|), QueryRouter, routers)
  }

  predicate Fresh(rows: seq<Row>, first: nat, shard: nat) {
    forall r :: r in rows ==> r.id < first && (r.kind == Member ==> r.shard < shard)
  }

  /** A new sharded cluster: one shard, its config servers and its routers. */
  function CreatedRows(members: nat, configServers: nat, routers: nat): seq<Row> {
    ShardRows(0, 0, 1, members)
      + PlainRows(members, ConfigServer, configServers)
      + PlainRows(members + configServers, QueryRouter, routers)
  }

  /** Removal of whole shards and routers that leaves a shard and a router. */
  predicate MayShrink(rows: seq<Row>, ids: set<nat>) {
    && ids != {} && ids <= Ids(rows)
    && (forall r :: r in rows && r.kind == ConfigServer ==> r.id !in ids)
    && (exists r :: r in rows && r.kind == QueryRouter && r.id !in ids)
    && (exists r :: r in rows && r.kind == Member
          && forall x :: x in rows && x.kind == Member && x.shard == r.shard ==> x.id !in ids)
    && (forall r, x ::
          (r in rows && x in rows && r.kind == Member && x.kind == Member && r.shard == x.shard && r.id in ids)
          ==> x.id in ids)
  }

  datatype Step =
    | Grow(sizes: seq<nat>, routers: nat, first: nat, shard: nat)
    | Shrink(ids: set<nat>)
    | GrowReplica(count: nat, first: nat)
    | ShrinkReplica(ids: set<nat>)

  /** The step is one the controller completes on these rows. */
  predicate Allowed(rows: seq<Row>, step: Step) {
    match step
    case Grow(sizes, routers, first, shard) =>
      IsSharded(rows) && (forall i :: 0 <= i < |sizes| ==> sizes[i] >= MIN_MEMBERS) && Fresh(rows, first, shard)
    case Shrink(ids) => IsSharded(rows) && MayShrink(rows, ids)
    case GrowReplica(count, first) => !IsSharded(rows) && forall r :: r in rows ==> r.id < first
    case ShrinkReplica(ids) => !IsSharded(rows) && ids <= Ids(rows) && |rows| - |ids| >= MIN_MEMBERS
  }

  function After(rows: seq<Row>, step: Step): seq<Row> {
    match step
    case Grow(sizes, routers, first, shard) => GrownRows(rows, sizes, routers, first, shard)
    case Shrink(ids) => Without(rows, ids)
    case GrowReplica(count, first) => rows + PlainRows(first, Member, count)
    case ShrinkReplica(ids) => Without(rows, ids)
  }

  // ---------- Counting rows ----------

  lemma OfKindJoin(a: seq<Row>, b: seq<Row>, k: Kind)
    ensures OfKind(a + b, k) == OfKind(a, k) + OfKind(b, k)
  {
    FilterJoin(a, b, KindIs(k));
  }

  lemma OfShardJoin(a: seq<Row>, b: seq<Row>, s: nat)
    ensures OfShard(a + b, s) == OfShard(a, s) + OfShard(b, s)
  {
    FilterJoin(a, b, ShardIs(s));
  }

  /** Rows of one kind and one shard, or none. */
  lemma Uniform(rows: seq<Row>, kind: Kind, shard: nat, k: Kind, s: nat)
    requires forall i :: 0 <= i < |rows| ==> rows[i].kind == kind && (kind == Member ==> rows[i].shard == shard)
    ensures OfKind(rows, k) == if k == kind then rows else []
    ensures OfShard(rows, s) == if kind == Member && s == shard then rows else []
  {
    if k == kind { FilterAll(rows, KindIs(k)); } else { FilterNone(rows, KindIs(k)); }
    if kind == Member && s == shard { FilterAll(rows, ShardIs(s)); } else { FilterNone(rows, ShardIs(s)); }
  }

  lemma {:induction false} ShardRowsAre(first: nat, shard: nat, number: nat, n: nat)
    ensures var rows := ShardRows(first, shard, number, n);
            |rows| == n && forall i :: 0 <= i < n ==> rows[i] == Row(first + i, Member, shard, number)
  {
    if n > 0 { ShardRowsAre(first, shard, number, n - 1); }
  }

  lemma {:induction false} PlainRowsAre(first: nat, kind: Kind, n: nat)
    ensures var rows := PlainRows(first, kind, n);
            |rows| == n && forall i :: 0 <= i < n ==> rows[i] == Row(first + i, kind, 0, 0)
  {
    if n > 0 { PlainRowsAre(first, kind, n - 1); }
  }

  // The new members: one row per requested member, ids without gaps, and each group whole.

  lemma {:induction false} GroupIds(sizes: seq<nat>, m: nat, first: nat, shard: nat, number: nat)
    requires m <= |sizes|
    ensures var rows := GroupRows(sizes, m, first, shard, number);
            |rows| == Total(sizes, m) && forall i :: 0 <= i < |rows| ==> rows[i].id == first + i
  {
    if m > 0 {
      GroupIds(sizes, m - 1, first, shard, number);
      ShardRowsAre(first + Total(sizes, m - 1), shard + m - 1, number + m - 1, sizes[m-1]);
    }
  }

  lemma OneShard(first: nat, shard: nat, number: nat, n: nat, k: Kind, s: nat)
    ensures k != Member ==> OfKind(ShardRows(first, shard, number, n), k) == []
    ensures |OfShard(ShardRows(first, shard, number, n), s)| == if s == shard then n else 0
  {
    ShardRowsAre(first, shard, number, n);
    Uniform(ShardRows(first, shard, number, n), Member, shard, k, s);
  }

  lemma NoneJoined(a: seq<Row>, b: seq<Row>, k: Kind)
    requires OfKind(a, k) == [] && OfKind(b, k) == []
    ensures OfKind(a + b, k) == []
  {
    OfKindJoin(a, b, k);
  }

  lemma {:induction false} GroupKind(sizes: seq<nat>, m: nat, first: nat, shard: nat, number: nat, k: Kind)
    requires m <= |sizes| && k != Member
    ensures OfKind(GroupRows(sizes, m, first, shard, number), k) == []
  {
    if m > 0 {
      GroupKind(sizes, m - 1, first, shard, number, k);
      var f, own := first + Total(sizes, m - 1), number + m - 1;
      OneShard(f, shard + m - 1, own, sizes[m-1], k, 0);
      NoneJoined(GroupRows(sizes, m - 1, first, shard, number), ShardRows(f, shard + m - 1, own, sizes[m-1]), k);
    }
  }

  lemma {:induction false} GroupShard(sizes: seq<nat>, m: nat, first: nat, shard: nat, number: nat, s: nat)
    requires m <= |sizes|
    ensures |OfShard(GroupRows(sizes, m, first, shard, number), s)|
            == if shard <= s < shard + m then sizes[s - shard] else 0
  {
    if m > 0 {
      GroupShard(sizes, m - 1, first, shard, number, s);
      var f, own := first + Total(sizes, m - 1), number + m - 1;
      OneShard(f, shard + m - 1, own, sizes[m-1], Member, s);
      OfShardJoin(GroupRows(sizes, m - 1, first, shard, number), ShardRows(f, shard + m - 1, own, sizes[m-1]), s);
    }
  }

  lemma WithoutMember(rows: seq<Row>, ids: set<nat>, r: Row)
    ensures r in Without(rows, ids) <==> r in rows && r.id !in ids
  {
    FilterMember(rows, NotIn(ids), r);
  }

  lemma WithoutKind(rows: seq<Row>, ids: set<nat>, k: Kind)
    requires forall i :: 0 <= i < |rows| && rows[i].kind == k ==> rows[i].id !in ids
    ensures OfKind(Without(rows, ids), k) == OfKind(rows, k)
  {
    FilterWithin(rows, NotIn(ids), KindIs(k));
  }

  lemma WithoutShard(rows: seq<Row>, ids: set<nat>, s: nat, gone: bool)
    requires forall i ::
               0 <= i < |rows| && rows[i].kind == Member && rows[i].shard == s ==> (rows[i].id in ids <==> gone)
    ensures OfShard(Without(rows, ids), s) == if gone then [] else OfShard(rows, s)
  {
    if gone { FilterApart(rows, NotIn(ids), ShardIs(s)); } else { FilterWithin(rows, NotIn(ids), ShardIs(s)); }
  }

  lemma {:induction false} WithoutDistinct(rows: seq<Row>, ids: set<nat>)
    requires DistinctIds(rows)
    ensures DistinctIds(Without(rows, ids))
  {
    if rows != [] {
      WithoutDistinct(rows[1..], ids);
      var rest := Without(rows[1..], ids);
      forall j | 0 <= j < |rest| ensures rest[j].id != rows[0].id {
        WithoutMember(rows[1..], ids, rest[j]);
      }
    }
  }

  lemma OfKindMember(rows: seq<Row>, k: Kind, r: Row)
    ensures r in OfKind(rows, k) <==> r in rows && r.kind == k
  {
    FilterMember(rows, KindIs(k), r);
  }

  lemma OfShardMember(rows: seq<Row>, s: nat, r: Row)
    ensures r in OfShard(rows, s) <==> r in rows && r.kind == Member && r.shard == s
  {
    FilterMember(rows, ShardIs(s), r);
  }

  // ---------- Every completed operation keeps the invariant ----------

  /** What a step leaves alone: the config servers, and every old shard that it does not remove whole. */
  ghost predicate Preserves(rows: seq<Row>, rows': seq<Row>) {
    && OfKind(rows', ConfigServer) == OfKind(rows, ConfigServer)
    && (forall s :: OfShard(rows, s) != [] ==> OfShard(rows', s) == OfShard(rows, s) || OfShard(rows', s) == [])
    && (forall s :: OfShard(rows', s) != [] ==> |OfShard(rows', s)| >= MIN_MEMBERS)
  }

  lemma FreshShard(rows: seq<Row>, s: nat)
    requires forall i :: 0 <= i < |rows| && rows[i].kind == Member ==> rows[i].shard < s
    ensures forall x :: x >= s ==> OfShard(rows, x) == []
  {
    forall x | x >= s ensures OfShard(rows, x) == [] { FilterNone(rows, ShardIs(x)); }
  }

  lemma GrownKind(rows: seq<Row>, sizes: seq<nat>, routers: nat, first: nat, shard: nat, k: Kind)
    requires k != Member
    ensures var rows' := GrownRows(rows, sizes, routers, first, shard);
            |OfKind(rows', k)| == |OfKind(rows, k)| + (if k == QueryRouter then routers else 0)
            && (k == ConfigServer ==> OfKind(rows', k) == OfKind(rows, k))
  {
    var added := GroupRows(sizes, |sizes|, first, shard, NextNumber(rows));
    var last := PlainRows(first + Total(sizes, |sizes|), QueryRouter, routers);
    PlainRowsAre(first + Total(sizes, |sizes|), QueryRouter, routers);
    OfKindJoin(rows + added, last, k);
    OfKindJoin(rows, added, k);
    GroupKind(sizes, |sizes|, first, shard, NextNumber(rows), k);
    Uniform(last, QueryRouter, 0, k, 0);
  }

  /** Growth adds exactly the requested members to fresh shards and none to the old ones. */
  lemma GrownShard(rows: seq<Row>, sizes: seq<nat>, routers: nat, first: nat, shard: nat, s: nat)
    requires Fresh(rows, first, shard)
    ensures var rows' := GrownRows(rows, sizes, routers, first, shard);
            if s < shard then OfShard(rows', s) == OfShard(rows, s)
            else OfShard(rows, s) == [] && |OfShard(rows', s)| == if s < shard + |sizes| then sizes[s - shard] else 0
  {
    var added := GroupRows(sizes, |sizes|, first, shard, NextNumber(rows));
    var last := PlainRows(first + Total(sizes, |sizes|), QueryRouter, routers);
    PlainRowsAre(first + Total(sizes, |sizes|), QueryRouter, routers);
    OfShardJoin(rows + added, last, s);
    OfShardJoin(rows, added, s);
    GroupShard(sizes, |sizes|, first, shard, NextNumber(rows), s);
    Uniform(last, QueryRouter, 0, QueryRouter, s);
    FreshShard(rows, shard);
  }

  lemma GrownIds(rows: seq<Row>, sizes: seq<nat>, routers: nat, first: nat, shard: nat)
    requires DistinctIds(rows) && Fresh(rows, first, shard)
    ensures var rows' := GrownRows(rows, sizes, routers, first, shard);
            DistinctIds(rows') && |rows'| == |rows| + Total(sizes, |sizes|) + routers
  {
    var added := GroupRows(sizes, |sizes|, first, shard, NextNumber(rows));
    GroupIds(sizes, |sizes|, first, shard, NextNumber(rows));
    PlainRowsAre(first + Total(sizes, |sizes|), QueryRouter, routers);
    assert forall i :: 0 <= i < |rows| ==> rows[i] in rows;
  }

  lemma GrowKeeps(rows: seq<Row>, sizes: seq<nat>, routers: nat, first: nat, shard: nat)
    requires ShardedInv(rows) && Allowed(rows, Grow(sizes, routers, first, shard))
    ensures var rows' := GrownRows(rows, sizes, routers, first, shard);
            ShardedInv(rows') && Preserves(rows, rows')
  {
    var rows' := GrownRows(rows, sizes, routers, first, shard);
    GrownIds(rows, sizes, routers, first, shard);
    GrownKind(rows, sizes, routers, first, shard, ConfigServer);
    GrownKind(rows, sizes, routers, first, shard, QueryRouter);
    forall s
      ensures OfShard(rows, s) != [] ==> OfShard(rows', s) == OfShard(rows, s)
      ensures OfShard(rows', s) != [] ==> |OfShard(rows', s)| >= MIN_MEMBERS
    {
      GrownShard(rows, sizes, routers, first, shard, s);
    }
    var s :| OfShard(rows, s) != [];
    assert OfShard(rows', s) != [];
  }

  /** Whether a shard goes with the requested instances: all its members do or none does. */
  lemma ShrunkShard(rows: seq<Row>, ids: set<nat>, s: nat)
    requires MayShrink(rows, ids)
    ensures OfShard(Without(rows, ids), s) == OfShard(rows, s) || OfShard(Without(rows, ids), s) == []
  {
    if r :| r in rows && r.kind == Member && r.shard == s && r.id in ids {
      WithoutShard(rows, ids, s, true);
    } else {
      assert forall i :: 0 <= i < |rows| ==> rows[i] in rows;
      WithoutShard(rows, ids, s, false);
    }
  }

  lemma ShrinkKeeps(rows: seq<Row>, ids: set<nat>)
    requires ShardedInv(rows) && MayShrink(rows, ids)
    ensures ShardedInv(Without(rows, ids)) && Preserves(rows, Without(rows, ids))
  {
    var rows' := Without(rows, ids);
    WithoutDistinct(rows, ids);
    WithoutKind(rows, ids, ConfigServer);
    forall s
      ensures OfShard(rows', s) == OfShard(rows, s) || OfShard(rows', s) == []
      ensures OfShard(rows', s) != [] ==> |OfShard(rows', s)| >= MIN_MEMBERS
    {
      ShrunkShard(rows, ids, s);
    }
    var q :| q in rows && q.kind == QueryRouter && q.id !in ids;
    WithoutMember(rows, ids, q);
    OfKindMember(rows', QueryRouter, q);
    var m :| m in rows && m.kind == Member
        && forall x :: x in rows && x.kind == Member && x.shard == m.shard ==> x.id !in ids;
    WithoutMember(rows, ids, m);
    OfShardMember(rows', m.shard, m);
    assert OfShard(rows', m.shard) != [];
  }

  lemma CreateMakes(members: nat, configServers: nat, routers: nat)
    requires members >= MIN_MEMBERS && configServers >= MIN_CONFIG_SERVERS && routers >= MIN_ROUTERS
    ensures ShardedInv(CreatedRows(members, configServers, routers))
    ensures Fresh(CreatedRows(members, configServers, routers), members + configServers + routers, 1)
  {
    var a := ShardRows(0, 0, 1, members);
    var b, c := PlainRows(members, ConfigServer, configServers),
        PlainRows(members + configServers, QueryRouter, routers);
    var rows := CreatedRows(members, configServers, routers);
    ShardRowsAre(0, 0, 1, members);
    PlainRowsAre(members, ConfigServer, configServers);
    PlainRowsAre(members + configServers, QueryRouter, routers);
    forall i | 0 <= i < |rows| ensures rows[i].id == i { }
    CreatedCounts(a, b, c, members, configServers, routers, 0);
    forall s: nat ensures |OfShard(rows, s)| == if s == 0 then members else 0 {
      CreatedCounts(a, b, c, members, configServers, routers, s);
    }
    assert OfShard(rows, 0) != [];
  }

  lemma CreatedCounts(a: seq<Row>, b: seq<Row>, c: seq<Row>, members: nat, configServers: nat, routers: nat, s: nat)
    requires a == ShardRows(0, 0, 1, members)
    requires b == PlainRows(members, ConfigServer, configServers)
    requires c == PlainRows(members + configServers, QueryRouter, routers)
    ensures |OfKind(a + b + c, ConfigServer)| == configServers && |OfKind(a + b + c, QueryRouter)| == routers
    ensures |OfShard(a + b + c, s)| == if s == 0 then members else 0
  {
    PlainRowsAre(members, ConfigServer, configServers);
    PlainRowsAre(members + configServers, QueryRouter, routers);
    OfKindJoin(a + b, c, ConfigServer);
    OfKindJoin(a, b, ConfigServer);
    OfKindJoin(a + b, c, QueryRouter);
    OfKindJoin(a, b, QueryRouter);
    OfShardJoin(a + b, c, s);
    OfShardJoin(a, b, s);
    OneShard(0, 0, 1, members, ConfigServer, s);
    OneShard(0, 0, 1, members, QueryRouter, s);
    Uniform(b, ConfigServer, 0, ConfigServer, s);
    Uniform(c, QueryRouter, 0, ConfigServer, s);
    Uniform(b, ConfigServer, 0, QueryRouter, s);
    Uniform(c, QueryRouter, 0, QueryRouter, s);
  }

  // ---------- Replica sets ----------

  lemma {:induction false} WithoutSize(rows: seq<Row>, ids: set<nat>)
    requires DistinctIds(rows)
    ensures |Without(rows, ids)| >= |rows| - |ids|
  {
    if rows != [] {
      var rest, ids' := rows[1..], ids - {rows[0].id};
      WithoutSize(rest, ids');
      FilterSame(rest, NotIn(ids), NotIn(ids'));
    }
  }

  lemma ReplicaKeeps(rows: seq<Row>, step: Step)
    requires ReplicaInv(rows) && Allowed(rows, step)
    ensures ReplicaInv(After(rows, step))
  {
    match step
    case GrowReplica(count, first) =>
      PlainRowsAre(first, Member, count);
      assert forall i :: 0 <= i < |rows| ==> rows[i] in rows;
    case ShrinkReplica(ids) =>
      WithoutDistinct(rows, ids);
      WithoutSize(rows, ids);
      forall r | r in Without(rows, ids) ensures r.kind == Member { WithoutMember(rows, ids, r); }
    case Grow(_, _, _, _) =>
    case Shrink(_) =>
  }

  // ---------- Whole runs ----------

  /** Completing `step` takes the cluster from rows to rows'. */
  predicate Completes(rows: seq<Row>, step: Step, rows': seq<Row>) {
    Allowed(rows, step) && rows' == After(rows, step)
  }

  predicate IsRun(states: seq<seq<Row>>, steps: seq<Step>) {
    |states| == |steps| + 1 && forall i :: 0 <= i < |steps| ==> Completes(states[i], steps[i], states[i+1])
  }

  lemma ShardedIsSharded(rows: seq<Row>)
    requires ShardedInv(rows)
    ensures IsSharded(rows)
  {
    var r := OfKind(rows, QueryRouter)[0];
    assert r in OfKind(rows, QueryRouter);
    OfKindMember(rows, QueryRouter, r);
  }

  lemma ShardedKeeps(rows: seq<Row>, step: Step)
    requires ShardedInv(rows) && Allowed(rows, step)
    ensures ShardedInv(After(rows, step)) && Preserves(rows, After(rows, step))
  {
    ShardedIsSharded(rows);
    match step
    case Grow(sizes, routers, first, shard) => GrowKeeps(rows, sizes, routers, first, shard);
    case Shrink(ids) => ShrinkKeeps(rows, ids);
    case GrowReplica(_, _) =>
    case ShrinkReplica(_) =>
  }

  lemma ShardedStep(rows: seq<Row>, step: Step, rows': seq<Row>)
    requires ShardedInv(rows) && Completes(rows, step, rows')
    ensures ShardedInv(rows') && OfKind(rows', ConfigServer) == OfKind(rows, ConfigServer)
  {
    ShardedKeeps(rows, step);
  }

  /** Through any number of completed operations a sharded cluster keeps its config servers, a router,
      a shard and every shard at its minimum. */
  lemma {:induction false} ShardedRuns(states: seq<seq<Row>>, steps: seq<Step>, n: nat)
    requires IsRun(states, steps) && n <= |steps| && ShardedInv(states[0])
    ensures ShardedInv(states[n]) && OfKind(states[n], ConfigServer) == OfKind(states[0], ConfigServer)
  {
    if n > 0 {
      ShardedRuns(states, steps, n - 1);
      ShardedStep(states[n-1], steps[n-1], states[n]);
    }
  }

  lemma ShardAfterStep(rows: seq<Row>, step: Step, rows': seq<Row>, s: nat)
    requires ShardedInv(rows) && Completes(rows, step, rows') && (step.Grow? ==> s < step.shard)
    ensures OfShard(rows', s) == OfShard(rows, s) || OfShard(rows', s) == []
  {
    ShardedIsSharded(rows);
    match step
    case Grow(sizes, routers, first, shard) => GrownShard(rows, sizes, routers, first, shard, s);
    case Shrink(ids) => ShrunkShard(rows, ids, s);
    case GrowReplica(_, _) =>
    case ShrinkReplica(_) =>
  }

  /** Between any two moments of a run a shard is unchanged or gone for good: its members change only as a
      whole. Growth uses shard ids that are newer than it. */
  lemma {:induction false} ShardWholeOrGone(states: seq<seq<Row>>, steps: seq<Step>, k: nat, n: nat, s: nat)
    requires IsRun(states, steps) && k <= n <= |steps| && ShardedInv(states[0])
    requires forall i :: k <= i < n && steps[i].Grow? ==> s < steps[i].shard
    ensures OfShard(states[n], s) == OfShard(states[k], s) || OfShard(states[n], s) == []
  {
    if k < n {
      ShardWholeOrGone(states, steps, k, n - 1, s);
      ShardedRuns(states, steps, n - 1);
      ShardAfterStep(states[n-1], steps[n-1], states[n], s);
    }
  }

  /** A replica-set cluster starts with its members alone. */
  lemma ReplicaCreated(members: nat)
    requires members >= MIN_MEMBERS
    ensures ReplicaInv(PlainRows(0, Member, members))
  {
    PlainRowsAre(0, Member, members);
  }

  /** A replica-set cluster keeps two members and never turns into a sharded one. */
  lemma {:induction false} ReplicaRuns(states: seq<seq<Row>>, steps: seq<Step>, n: nat)
    requires IsRun(states, steps) && n <= |steps| && ReplicaInv(states[0])
    ensures ReplicaInv(states[n])
  {
    if n > 0 {
      ReplicaRuns(states, steps, n - 1);
      assert Completes(states[n-1], steps[n-1], states[n]);
      ReplicaKeeps(states[n-1], steps[n-1]);
    }
  }
}
