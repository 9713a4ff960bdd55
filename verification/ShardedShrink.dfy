// Shrinking a sharded cluster: guards, draining through a kept router, then deletion
// (controller/api.py, _shrink_sharded and _remove_shard_from_router; service.py, remove_shard).

module ShardedShrink {
  import opened Filters
  import opened Roles
  import opened Topology

  datatype Task = NoTask | Shrinking | OtherTask

  datatype Event =
    | Drained(number: nat, router: nat)
    | Detached(id: nat, registeredThen: set<nat>)
    | Deleted(id: nat, registeredThen: set<nat>)

  /** One answer of the guest's remove_shard. */
  datatype Reply = Raised | NotOk | Ongoing | Completed

  datatype Result =
    | Busy | NothingRequested | NotFound | ConfigServerRequested | LastRouter | LastShard | PartialShard
    | DrainFailed | NovaFailed | Done

  /** Names of the shards that lose members. */
  function TargetNames(rows: seq<Row>, ids: set<nat>): set<nat> {
    set r | r in rows && r.kind == Member && r.id in ids :: r.number
  }

  /** The first router that stays, in row order. */
  ghost predicate FirstKept(rows: seq<Row>, ids: set<nat>, id: nat) {
    exists i :: 0 <= i < |rows| && rows[i].kind == QueryRouter && rows[i].id == id && id !in ids
                && forall j :: 0 <= j < i ==> rows[j].kind != QueryRouter || rows[j].id in ids
  }

  ghost function KeptRouters(rows: seq<Row>, ids: set<nat>): set<nat> {
    set r | r in rows && r.kind == QueryRouter && FirstKept(rows, ids, r.id) :: r.id
  }

  /** The answers, one to a call, let the drain of a shard end in time: the first does not refuse, and one of the
      first rounds + 1 completes it before any call raises. A shard that is not known to the router needs only
      the first call to get through. */
  predicate DrainEnds(known: bool, answers: (nat, nat) -> Reply, number: nat, rounds: nat) {
    && !answers(number, 0).Raised?
    && (known ==>
         && !answers(number, 0).NotOk?
         && exists j :: 0 <= j <= rounds && answers(number, j).Completed?
                        && forall i :: 0 <= i < j ==> !answers(number, i).Raised?)
  }

  /** All the named shards drain in time. */
  predicate AllDrain(names: set<nat>, registered: set<nat>, answers: (nat, nat) -> Reply, rounds: nat) {
    forall number :: number in names ==> DrainEnds(number in registered, answers, number, rounds)
  }

  /** Some member of the shard is requested. */
  predicate Targeted(rows: seq<Row>, ids: set<nat>, shard: nat) {
    exists x | x in rows :: x.kind == Member && x.shard == shard && x.id in ids
  }

  predicate ShardsNamedOnce(rows: seq<Row>) {
    forall a, b :: (a in rows && b in rows && a.kind == Member && b.kind == Member && a.shard == b.shard)
      ==> a.number == b.number
  }

  /** Shards drain through a router that stays; an instance leaves only once no target is registered,
      and is deleted right after it is detached. */
  ghost predicate SafeRun(run: seq<Event>, ids: set<nat>, names: set<nat>, kept: set<nat>) {
    forall k :: 0 <= k < |run| ==> SafeEvent(run, k, ids, names, kept)
  }

  predicate SafeEvent(run: seq<Event>, k: nat, ids: set<nat>, names: set<nat>, kept: set<nat>)
    requires k < |run|
  {
    match run[k]
    case Drained(number, router) => number in names && router in kept
    case Detached(id, registeredThen) => id in ids && registeredThen !! names
    case Deleted(id, registeredThen) =>
      id in ids && registeredThen !! names && k > 0 && run[k-1] == Detached(id, registeredThen)
  }

  class Cluster {
    var rows: seq<Row>
    var status: Task
    var registered: set<nat>     // shards the routers know
    var deleted: set<nat>
    var log: seq<Event>
    const faulty: bool              // whether looking up, detaching and deleting may fail

    ghost predicate Valid()
      reads this`rows
    {
      DistinctIds(rows) && ShardsNamedOnce(rows)
    }

    /** remove_shard on the guest: an unregistered shard counts as completed; a registered one leaves
        the list exactly when the drain completes. */
    method CallRemoveShard(number: nat, answer: Reply) returns (r: Reply)
      modifies this`registered
      ensures r == if answer.Raised? || number in old(registered) then answer else Completed
      ensures registered == if r.Completed? then old(registered) - {number} else old(registered)
    {
      if answer.Raised? { return Raised; }
      if number !in registered { return Completed; }
      r := answer;
      if r.Completed? { registered := registered - {number}; }
    }

    /** Only the first answer is checked for a refusal; afterwards the call is repeated until the drain
        completes. `rounds` is how often the clock still reads before the deadline. */
    method RemoveShardFromRouter(router: nat, number: nat, rounds: nat, answers: (nat, nat) -> Reply)
      returns (ok: bool)
      modifies this`registered, this`log
      ensures ok <==> DrainEnds(number in old(registered), answers, number, rounds)
      ensures ok ==> registered == old(registered) - {number} && log == old(log) + [Drained(number, router)]
      ensures !ok ==> registered == old(registered) && log == old(log)
    {
      var r := CallRemoveShard(number, answers(number, 0));
      if r.Raised? || r.NotOk? { return false; }
      var round := 0;
      while !r.Completed? && round < rounds
        invariant round <= rounds && log == old(log)
        invariant registered == if r.Completed? then old(registered) - {number} else old(registered)
        invariant forall i :: 0 <= i <= round ==> !answers(number, i).Raised?
        invariant r == if number in old(registered) then answers(number, round) else Completed
        invariant number in old(registered) && !r.Completed? ==>
                    forall i :: 0 <= i <= round ==> !answers(number, i).Completed?
        decreases rounds - round
      {
        r := CallRemoveShard(number, answers(number, round + 1));
        if r.Raised? { return false; }
        round := round + 1;
      }
      ok := r.Completed?;
      if ok { log := log + [Drained(number, router)]; }
    }

    /** The guards of _shrink_sharded, in order. */
    method Check(ids: set<nat>) returns (r: Result)
      requires Valid()
      ensures r.Done? <==> status == NoTask && MayShrink(rows, ids)
      ensures r.Busy? <==> status != NoTask
      ensures r.NothingRequested? ==> ids == {}
      ensures r.NotFound? ==> !(ids <= Ids(rows))
      ensures r.ConfigServerRequested? ==> exists x :: x in rows && x.kind == ConfigServer && x.id in ids
      ensures r.LastRouter? ==> forall q :: q in rows && q.kind == QueryRouter ==> q.id in ids
      ensures r.LastShard? ==> forall x :: x in rows && x.kind == Member ==> Targeted(rows, ids, x.shard)
      ensures r.PartialShard? ==> exists a, b :: a in rows && b in rows && a.kind == Member && b.kind == Member
                                    && a.shard == b.shard && a.id in ids && b.id !in ids
      ensures !r.DrainFailed? && !r.NovaFailed?
    {
      if status != NoTask { return Busy; }
      if ids == {} { return NothingRequested; }
      if !(ids <= Ids(rows)) { return NotFound; }
      if exists x | x in rows :: x.kind == ConfigServer && x.id in ids { return ConfigServerRequested; }
      var kept := Filter(OfKind(rows, QueryRouter), NotIn(ids));
      if |kept| < MIN_ROUTERS {
        NoRouterLeft(rows, ids);
        return LastRouter;
      }
      RouterLeft(rows, ids);
      if !exists x | x in rows :: x.kind == Member && !Targeted(rows, ids, x.shard) { return LastShard; }
      if exists x | x in rows :: x.kind == Member && Targeted(rows, ids, x.shard) && x.id !in ids {
        return PartialShard;
      }
      r := Done;
    }

    /** Drains every shard that loses members, each once, through the first router that stays. */
    method DrainAll(ids: set<nat>, rounds: nat, answers: (nat, nat) -> Reply)
      returns (ok: bool, ghost run: seq<Event>)
      requires Valid() && MayShrink(rows, ids)
      modifies this`registered, this`log
      ensures log == old(log) + run && SafeRun(run, ids, TargetNames(rows, ids), KeptRouters(rows, ids))
      ensures forall k :: 0 <= k < |run| ==> run[k].Drained?
      ensures old(registered) - TargetNames(rows, ids) <= registered <= old(registered)
      ensures ok ==> registered == old(registered) - TargetNames(rows, ids)
      ensures !faulty ==> (ok <==> AllDrain(TargetNames(rows, ids), old(registered), answers, rounds))
    {
      var router := KeptRouter(rows, ids);
      var targets := TargetShards(ids);
      ok, run := DrainEach(targets, router, rounds, answers, ids, TargetNames(rows, ids), KeptRouters(rows, ids));
    }

    /** The drain loop. */
    method DrainEach(targets: seq<Row>, router: nat, rounds: nat, answers: (nat, nat) -> Reply, ghost ids: set<nat>,
                     ghost names: set<nat>, ghost kept: set<nat>)
      returns (ok: bool, ghost run: seq<Event>)
      requires names == Names(targets, |targets|) && router in kept
      modifies this`registered, this`log
      ensures log == old(log) + run && SafeRun(run, ids, names, kept)
      ensures forall k :: 0 <= k < |run| ==> run[k].Drained?
      ensures old(registered) - names <= registered <= old(registered)
      ensures ok ==> registered == old(registered) - names
      ensures !faulty ==> (ok <==> AllDrain(names, old(registered), answers, rounds))
    {
      run := [];
      for k := 0 to |targets|
        invariant log == old(log) + run && SafeRun(run, ids, names, kept)
        invariant forall j :: 0 <= j < |run| ==> run[j].Drained?
        invariant registered == old(registered) - Names(targets, k)
        invariant !faulty ==> AllDrain(Names(targets, k), old(registered), answers, rounds)
      {
        NamesStep(targets, k);
        ok, run := DrainOne(targets[k].number, router, rounds, answers, run, ids, names, kept);
        if !ok { return; }
      }
      ok := true;
    }

    /** One turn of the drain loop: the router's guest is looked up and the shard is removed from it. */
    method DrainOne(number: nat, router: nat, rounds: nat, answers: (nat, nat) -> Reply, ghost before: seq<Event>,
                    ghost ids: set<nat>, ghost names: set<nat>, ghost kept: set<nat>)
      returns (ok: bool, ghost run: seq<Event>)
      requires number in names && router in kept
      requires SafeRun(before, ids, names, kept) && forall j :: 0 <= j < |before| ==> before[j].Drained?
      modifies this`registered, this`log
      ensures run == before + if ok then [Drained(number, router)] else []
      ensures log == old(log) + run[|before|..] && SafeRun(run, ids, names, kept)
      ensures forall j :: 0 <= j < |run| ==> run[j].Drained?
      ensures registered == old(registered) - if ok then {number} else {}
      ensures ok ==> DrainEnds(number in old(registered), answers, number, rounds)
      ensures !faulty && DrainEnds(number in old(registered), answers, number, rounds) ==> ok
    {
      run := before;
      var raises: bool := *;
      if faulty && raises { return false, run; }
      ok := RemoveShardFromRouter(router, number, rounds, answers);
      if ok {
        SafeRunJoin(before, [Drained(number, router)], ids, names, kept);
        run := before + [Drained(number, router)];
      }
    }

    /** target_shards: the first requested member of every shard that loses members, in row order. */
    method TargetShards(ids: set<nat>) returns (targets: seq<Row>)
      requires Valid()
      ensures forall r :: r in targets ==> r in rows && r.kind == Member && r.id in ids
      ensures forall i, j :: 0 <= i < j < |targets| ==> targets[i].shard != targets[j].shard
      ensures Names(targets, |targets|) == TargetNames(rows, ids)
    {
      targets := [];
      for k := 0 to |rows|
        invariant forall r :: r in targets ==> r in rows && r.kind == Member && r.id in ids
        invariant forall i, j :: 0 <= i < j < |targets| ==> targets[i].shard != targets[j].shard
        invariant forall i :: 0 <= i < k && rows[i].kind == Member && rows[i].id in ids
                    ==> exists j :: 0 <= j < |targets| && targets[j].shard == rows[i].shard
      {
        if rows[k].kind == Member && rows[k].id in ids
           && !(exists j | 0 <= j < |targets| :: targets[j].shard == rows[k].shard) {
          ghost var before := targets;
          targets := targets + [rows[k]];
          assert targets[|before|] == rows[k];
          assert forall j :: 0 <= j < |before| ==> targets[j] == before[j];
        }
      }
      AllTargetsNamed(rows, ids, targets);
    }

    /** Detaches and deletes the requested instances one after the other, in any order; either call may
        fail on a faulty cloud. */
    method DeleteAll(ids: set<nat>, ghost names: set<nat>, ghost kept: set<nat>)
      returns (r: Result, ghost gone: set<nat>, ghost run: seq<Event>)
      requires registered !! names
      modifies this`rows, this`deleted, this`log
      ensures r.Done? || r.NovaFailed?
      ensures log == old(log) + run && SafeRun(run, ids, names, kept)
      ensures gone <= ids && rows == Without(old(rows), gone) && deleted <= old(deleted) + gone
      ensures r.Done? ==> gone == ids && deleted == old(deleted) + ids
      ensures !faulty ==> r.Done?
    {
      gone, run := {}, [];
      var left := ids;
      WithoutNone(rows);
      while left != {}
        invariant left == ids - gone && gone <= ids
        invariant log == old(log) + run && SafeRun(run, ids, names, kept)
        invariant rows == Without(old(rows), gone) && deleted == old(deleted) + gone
      {
        var id :| id in left;
        var fails: bool := *;
        if faulty && fails { return NovaFailed, gone, run; }
        WithoutOneMore(old(rows), gone, id);
        rows := Without(rows, {id});
        log := log + [Detached(id, registered)];
        SafeRunJoin(run, [Detached(id, registered)], ids, names, kept);
        SafeRunJoin(run, [Detached(id, registered), Deleted(id, registered)], ids, names, kept);
        gone, run := gone + {id}, run + [Detached(id, registered)];
        fails := *;
        if faulty && fails { return NovaFailed, gone, run; }
        deleted := deleted + {id};
        log := log + [Deleted(id, registered)];
        assert run + [Deleted(id, registered)] == run[..|run|-1] + [Detached(id, registered), Deleted(id, registered)];
        run := run + [Deleted(id, registered)];
        left := left - {id};
      }
      r := Done;
    }

    /** _shrink_sharded. `gone` and `run` describe what happened, for the caller's reasoning only. */
    method Shrink(ids: set<nat>, rounds: nat, answers: (nat, nat) -> Reply)
      returns (r: Result, ghost gone: set<nat>, ghost run: seq<Event>)
      requires Valid()
      modifies this
      ensures Valid() && log == old(log) + run
      ensures SafeRun(run, ids, TargetNames(old(rows), ids), KeptRouters(old(rows), ids))
      ensures (r.DrainFailed? || r.NovaFailed? || r.Done?) <==> old(status) == NoTask && MayShrink(old(rows), ids)
      ensures !(r.DrainFailed? || r.NovaFailed? || r.Done?) ==> unchanged(this)
      ensures !r.Busy? ==> status == NoTask
      ensures gone <= ids && rows == Without(old(rows), gone) && deleted <= old(deleted) + gone
      ensures old(registered) - TargetNames(old(rows), ids) <= registered <= old(registered)
      // A failed drain deletes nothing.
      ensures r.DrainFailed? ==> gone == {} && rows == old(rows) && deleted == old(deleted)
                                 && forall k :: 0 <= k < |run| ==> run[k].Drained?
      ensures r.Done? ==> Completes(old(rows), Step.Shrink(ids), rows)
      ensures r.Done? ==> gone == ids && deleted == old(deleted) + ids
                          && registered == old(registered) - TargetNames(old(rows), ids)
      // It finishes exactly when every drain ends in time. Shards that an earlier attempt drained count as
      // completed, so the same request then finishes.
      ensures !faulty && old(status) == NoTask && MayShrink(old(rows), ids) ==>
                (r.Done? <==> AllDrain(TargetNames(old(rows), ids), old(registered), answers, rounds))
    {
      gone, run := {}, [];
      r := Check(ids);
      WithoutNone(rows);
      if !r.Done? { return; }
      status := Shrinking;
      r, gone, run := DrainAndDelete(ids, rounds, answers);
      StillValid(old(rows), gone);
      status := NoTask;
    }

    /** The part of _shrink_sharded inside try/finally. */
    method DrainAndDelete(ids: set<nat>, rounds: nat, answers: (nat, nat) -> Reply)
      returns (r: Result, ghost gone: set<nat>, ghost run: seq<Event>)
      requires Valid() && MayShrink(rows, ids)
      modifies this`rows, this`registered, this`deleted, this`log
      ensures r.DrainFailed? || r.NovaFailed? || r.Done?
      ensures log == old(log) + run && SafeRun(run, ids, TargetNames(old(rows), ids), KeptRouters(old(rows), ids))
      ensures gone <= ids && rows == Without(old(rows), gone) && deleted <= old(deleted) + gone
      ensures old(registered) - TargetNames(old(rows), ids) <= registered <= old(registered)
      ensures r.DrainFailed? ==> gone == {} && rows == old(rows) && deleted == old(deleted)
                                 && forall k :: 0 <= k < |run| ==> run[k].Drained?
      ensures r.Done? ==> gone == ids && deleted == old(deleted) + ids
                          && registered == old(registered) - TargetNames(old(rows), ids)
      ensures !faulty ==> (r.Done? <==> AllDrain(TargetNames(old(rows), ids), old(registered), answers, rounds))
    {
      gone := {};
      ghost var names, kept := TargetNames(rows, ids), KeptRouters(rows, ids);
      WithoutNone(rows);
      var ok: bool;
      ok, run := DrainAll(ids, rounds, answers);
      if ok {
        ghost var tail;
        r, gone, tail := DeleteAll(ids, names, kept);
        SafeRunJoin(run, tail, ids, names, kept);
        run := run + tail;
      } else {
        r := DrainFailed;
      }
    }
  }

  function Names(targets: seq<Row>, n: nat): set<nat>
    requires n <= |targets|
  {
    set i | 0 <= i < n :: targets[i].number
  }

  lemma NamesStep(targets: seq<Row>, k: nat)
    requires k < |targets|
    ensures Names(targets, k + 1) == Names(targets, k) + {targets[k].number}
    ensures targets[k].number in Names(targets, |targets|)
  {
  }

  lemma AllTargetsNamed(rows: seq<Row>, ids: set<nat>, targets: seq<Row>)
    requires ShardsNamedOnce(rows)
    requires forall r :: r in targets ==> r in rows && r.kind == Member && r.id in ids
    requires forall i :: 0 <= i < |rows| && rows[i].kind == Member && rows[i].id in ids
               ==> exists j :: 0 <= j < |targets| && targets[j].shard == rows[i].shard
    ensures Names(targets, |targets|) == TargetNames(rows, ids)
  {
    forall number | number in TargetNames(rows, ids) ensures number in Names(targets, |targets|) {
      var r :| r in rows && r.kind == Member && r.id in ids && r.number == number;
      var i :| 0 <= i < |rows| && rows[i] == r;
      var j :| 0 <= j < |targets| && targets[j].shard == r.shard;
      assert targets[j] in targets;
    }
    forall number | number in Names(targets, |targets|) ensures number in TargetNames(rows, ids) {
      var i :| 0 <= i < |targets| && targets[i].number == number;
      assert targets[i] in targets;
    }
  }

  function KeptRouter(rows: seq<Row>, ids: set<nat>): (id: nat)
    requires exists q :: q in rows && q.kind == QueryRouter && q.id !in ids
    ensures FirstKept(rows, ids, id) && id in KeptRouters(rows, ids)
  {
    if rows[0].kind == QueryRouter && rows[0].id !in ids then
      assert rows[0] in rows;
      rows[0].id
    else
      var later := KeptRouter(rows[1..], ids);
      LaterKept(rows, ids, later);
      later
  }

  lemma LaterKept(rows: seq<Row>, ids: set<nat>, id: nat)
    requires rows != [] && !(rows[0].kind == QueryRouter && rows[0].id !in ids) && FirstKept(rows[1..], ids, id)
    ensures FirstKept(rows, ids, id) && id in KeptRouters(rows, ids)
  {
    var rest := rows[1..];
    var i :| 0 <= i < |rest| && rest[i].kind == QueryRouter && rest[i].id == id && id !in ids
             && forall j :: 0 <= j < i ==> rest[j].kind != QueryRouter || rest[j].id in ids;
    forall j | 0 <= j < i + 1 ensures rows[j].kind != QueryRouter || rows[j].id in ids {
      if j > 0 { assert rows[j] == rest[j-1]; }
    }
    assert rows[i+1] == rest[i] && rows[i+1] in rows;
  }

  lemma WithoutOneMore(rows: seq<Row>, gone: set<nat>, id: nat)
    ensures Without(Without(rows, gone), {id}) == Without(rows, gone + {id})
  {
    FilterTwice(rows, NotIn(gone), NotIn({id}), NotIn(gone + {id}));
  }

  lemma StillValid(rows: seq<Row>, gone: set<nat>)
    requires DistinctIds(rows) && ShardsNamedOnce(rows)
    ensures DistinctIds(Without(rows, gone)) && ShardsNamedOnce(Without(rows, gone))
  {
    WithoutDistinct(rows, gone);
    forall r | r in Without(rows, gone) ensures r in rows { WithoutMember(rows, gone, r); }
  }

  lemma SafeRunJoin(a: seq<Event>, b: seq<Event>, ids: set<nat>, names: set<nat>, kept: set<nat>)
    requires SafeRun(a, ids, names, kept) && SafeRun(b, ids, names, kept)
    ensures SafeRun(a + b, ids, names, kept)
  {
    var run := a + b;
    forall k | 0 <= k < |run| ensures SafeEvent(run, k, ids, names, kept) {
      if k < |a| {
        assert SafeEvent(a, k, ids, names, kept) && run[k] == a[k];
      } else {
        assert SafeEvent(b, k - |a|, ids, names, kept) && run[k] == b[k - |a|];
      }
    }
  }

  // ---------- The guards and MayShrink ----------

  lemma NoRouterLeft(rows: seq<Row>, ids: set<nat>)
    requires Filter(OfKind(rows, QueryRouter), NotIn(ids)) == []
    ensures forall q :: q in rows && q.kind == QueryRouter ==> q.id in ids
  {
    forall q | q in rows && q.kind == QueryRouter ensures q.id in ids {
      OfKindMember(rows, QueryRouter, q);
      FilterMember(OfKind(rows, QueryRouter), NotIn(ids), q);
    }
  }

  lemma RouterLeft(rows: seq<Row>, ids: set<nat>)
    requires Filter(OfKind(rows, QueryRouter), NotIn(ids)) != []
    ensures exists q :: q in rows && q.kind == QueryRouter && q.id !in ids
  {
    var q := Filter(OfKind(rows, QueryRouter), NotIn(ids))[0];
    FilterMember(OfKind(rows, QueryRouter), NotIn(ids), q);
    OfKindMember(rows, QueryRouter, q);
  }

  lemma WithoutNone(rows: seq<Row>)
    ensures Without(rows, {}) == rows
  {
    FilterAll(rows, NotIn({}));
  }
}
