// Creating and growing a cluster from the task manager: guest calls in order, readiness waits, and the
// task status (controller/taskmanager.py, MongoDbClusterTasks).

module Assembly {
  import opened AssemblyTrace
  import opened Filters
  import opened Options
  import opened Roles

  datatype Task = NoTask | Busy

  /** How a run ends: the task is cleared, the cluster is marked failed, or a timeout that is not the run's own
      goes on up. */
  datatype Ending = Reset | MarkedFailed | Reraised

  /** A replica-set status: addresses and the states of their members. */
  type Report = seq<(string, nat)>

  /** Every expected address is reported primary (1) or secondary (2). */
  predicate SeenReady(report: Report, addresses: seq<string>) {
    forall a :: a in addresses ==> exists m :: m in report && m.0 == a && (m.1 == 1 || m.1 == 2)
  }

  predicate SeenInOne(reports: seq<Report>, addresses: seq<string>) {
    exists report | report in reports :: SeenReady(report, addresses)
  }

  /** Each wait that ended well had an answer that showed its addresses ready. */
  ghost predicate Witnessed(log: seq<Event>, reports: seq<Report>) {
    forall e :: e in log && e.Ready? ==> SeenInOne(reports, e.addresses)
  }

  function AllSecondary(addresses: seq<string>): Report {
    seq(|addresses|, i requires 0 <= i < |addresses| => (addresses[i], 2))
  }

  /** Nothing in the data itself stops the work on these instances. */
  predicate Sound(instances: seq<Instance>) {
    forall x :: x in instances ==> x.visible && x.setName != ""
  }

  class Manager {
    var log: seq<Event>                  // guest calls that returned, and waits that ended well
    var status: Task
    var failed: bool                     // instances and cluster marked failed
    var reports: seq<Report>             // the replica-set status answers
    const faulty: bool                   // whether a call may raise, a wait may end badly, or the time may run out
    const lag: nat                       // how many looks at most find a sound replica set not ready yet

    /** Any guest call, with the timeout counted as a raise. */
    method Raises() returns (raised: bool)
      ensures raised ==> faulty
    {
      raised := *;
      raised := raised && faulty;
    }

    /** What was waited for so far was seen. */
    ghost predicate AllSeen()
      reads this`log, this`reports
    {
      Witnessed(log, reports)
    }

    /** What the looks at the replica set will find, one after the other; None is a look that raises. */
    method Looks(addresses: seq<string>) returns (looks: nat -> Option<Report>)
      ensures !faulty ==> forall i: nat :: i >= lag ==> looks(i).Some? && SeenReady(looks(i).value, addresses)
    {
      var any: nat -> Option<Report> := *;
      var settled, after, ready := !faulty, lag, AllSecondary(addresses);
      looks := (i: nat) => if settled && i >= after then Some(ready) else any(i);
      forall a | a in addresses ensures exists m :: m in ready && m.0 == a && m.1 == 2 {
        var i :| 0 <= i < |addresses| && addresses[i] == a;
        assert ready[i] in ready;
      }
    }

    /** `rounds` is how often the clock reads before the deadline: the wait ends well exactly when one of so many
        looks shows every address primary or secondary. */
    method WaitForReplicaMembers(addresses: seq<string>, rounds: nat, looks: nat -> Option<Report>) returns (ok: bool)
      modifies this`reports
      ensures ok <==> exists i :: 0 <= i < rounds && looks(i).Some? && SeenReady(looks(i).value, addresses)
      ensures old(reports) <= reports
      ensures ok ==> reports != [] && SeenReady(reports[|reports|-1], addresses)
    {
      for round := 0 to rounds
        invariant old(reports) <= reports
        invariant forall i :: 0 <= i < round ==> looks(i).None? || !SeenReady(looks(i).value, addresses)
      {
        var look := looks(round);
        if look.Some? {
          reports := reports + [look.value];
          var ready := set m | m in look.value && (m.1 == 1 || m.1 == 2) :: m.0;
          if forall a | a in addresses :: a in ready { return true; }
        }
      }
      ok := false;
    }

    /** Waits and, when the wait ends well, notes it. */
    method AwaitGroup(group: Group, addresses: seq<string>, rounds: nat) returns (ok: bool)
      modifies this`log, this`reports
      ensures log == old(log) + if ok then [Ready(group, addresses)] else []
      ensures old(AllSeen()) ==> AllSeen()
      ensures !faulty && rounds > lag ==> ok
    {
      var looks := Looks(addresses);
      assert !faulty ==> looks(lag).Some? && SeenReady(looks(lag).value, addresses);
      ok := WaitForReplicaMembers(addresses, rounds, looks);
      if ok {
        log := log + [Ready(group, addresses)];
        assert reports[|reports|-1] in reports;
      }
    }

    method InitializeReplicaSet(group: Group, members: seq<Instance>, rounds: nat) returns (ok: bool)
      modifies this`log, this`reports
      ensures old(AllSeen()) ==> AllSeen()
      ensures old(log) <= log <= old(log) + InitTrace(group, members)
      ensures ok <==> members != [] && log == old(log) + InitTrace(group, members)
      ensures ok ==> AllVisible(members)
      ensures ok ==> log == old(log) + [Initiated(group, members[0].id, Addresses(members)),
                                        Ready(group, Addresses(members))]
      ensures !faulty && rounds > lag && members != [] && AllVisible(members) ==> ok
    {
      if members == [] || !AllVisible(members) { return false; }
      var raised := Raises();
      if raised { return false; }
      log := log + [Initiated(group, members[0].id, Addresses(members))];
      ok := AwaitGroup(group, Addresses(members), rounds);
    }

    method ConfigureQueryRouters(routers: seq<Instance>, configs: seq<Instance>) returns (ok: bool)
      modifies this`log
      ensures old(AllSeen()) ==> AllSeen()
      ensures old(log) <= log <= old(log) + RoutersTrace(routers, configs)
      ensures ok <==> routers != [] && configs != [] && log == old(log) + RoutersTrace(routers, configs)
      ensures ok ==> AllVisible(configs)
      ensures !faulty && routers != [] && configs != [] && AllVisible(configs) ==> ok
    {
      RoutersAre(routers, Addresses(configs), |routers|);
      if routers == [] || !AllVisible(configs) || configs == [] { return false; }
      for n := 0 to |routers|
        invariant log == old(log) + RouterTrace(routers, Addresses(configs), n)
        invariant old(AllSeen()) ==> AllSeen()
      {
        var raised := Raises();
        if raised {
          RouterPrefix(routers, Addresses(configs), n);
          return false;
        }
        log := log + [Configured(routers[n].id, Addresses(configs))];
      }
      ok := true;
    }

    /** A shard is initiated, waited for, and registered under the name its first member reports; a
        refused registration fails. */
    method CreateShard(shard: nat, router: nat, members: seq<Instance>, rounds: nat) returns (ok: bool)
      modifies this`log, this`reports
      ensures old(AllSeen()) ==> AllSeen()
      ensures old(log) <= log <= old(log) + ShardTrace(shard, router, members)
      ensures ok <==> members != [] && log == old(log) + ShardTrace(shard, router, members)
      ensures ok ==> AllVisible(members) && members[0].setName != ""
      ensures !faulty && rounds > lag && members != [] && Sound(members) ==> ok
    {
      ok := InitializeReplicaSet(Shard(shard), members, rounds);
      if !ok { return; }
      ghost var initiated := log;
      assert members[0] in members;
      var raised := Raises();
      ok := !raised && members[0].setName != "";
      if ok {
        raised := Raises();
        ok := !raised;
        if ok { log := log + [Registered(shard, router, members[0].setName, members[0].address)]; }
      }
      ShardPrefix(old(log), shard, router, members);
    }

    /** shard_ids: every shard of the members once, in order of appearance. */
    method CollectShardIds(members: seq<Instance>) returns (ids: seq<nat>)
      ensures ids == ShardIds(members, |members|)
    {
      ids := [];
      for n := 0 to |members|
        invariant ids == ShardIds(members, n)
      {
        if members[n].shard !in ids { ids := ids + [members[n].shard]; }
      }
    }

    method CreateShards(routers: seq<Instance>, members: seq<Instance>, rounds: nat) returns (ok: bool)
      requires routers != []
      modifies this`log, this`reports
      ensures old(AllSeen()) ==> AllSeen()
      ensures old(log) <= log <= old(log) + AllShardsTrace(routers, members)
      ensures ok <==> log == old(log) + AllShardsTrace(routers, members)
      ensures !faulty && rounds > lag && Sound(members) ==> ok
    {
      var ids := CollectShardIds(members);
      ok := CreateEach(ids, routers[0].id, members, rounds, ShardParts(ids, routers[0].id, members));
    }

    method CreateEach(ids: seq<nat>, router: nat, members: seq<Instance>, rounds: nat, ghost parts: seq<seq<Event>>)
      returns (ok: bool)
      requires ids == ShardIds(members, |members|) && parts == ShardParts(ids, router, members)
      modifies this`log, this`reports
      ensures old(AllSeen()) ==> AllSeen()
      ensures old(log) <= log <= old(log) + Flatten(parts, |parts|)
      ensures ok <==> log == old(log) + Flatten(parts, |parts|)
      ensures !faulty && rounds > lag && Sound(members) ==> ok
    {
      var n := 0;
      ok := true;
      while n < |ids| && ok
        invariant OnTrack(old(log), parts, n, ok) && (old(AllSeen()) ==> AllSeen())
        invariant !faulty && rounds > lag && Sound(members) ==> ok
        decreases |ids| - n, ok
      {
        ok := CreateNext(ids, router, members, rounds, parts, n, old(log));
        n := n + 1;
      }
    }

    /** The first n parts are done, or the work stopped before the end of all parts. */
    ghost predicate OnTrack(start: seq<Event>, parts: seq<seq<Event>>, n: nat, ok: bool)
      reads this`log
    {
      && n <= |parts|
      && (ok ==> log == start + Flatten(parts, n))
      && (!ok ==> start <= log < start + Flatten(parts, |parts|))
    }

    method CreateNext(ids: seq<nat>, router: nat, members: seq<Instance>, rounds: nat, ghost parts: seq<seq<Event>>,
                      n: nat, ghost start: seq<Event>)
      returns (ok: bool)
      requires ids == ShardIds(members, |members|) && parts == ShardParts(ids, router, members) && n < |ids|
      requires OnTrack(start, parts, n, true)
      modifies this`log, this`reports
      ensures old(AllSeen()) ==> AllSeen()
      ensures OnTrack(start, parts, n + 1, ok)
      ensures !faulty && rounds > lag && Sound(members) ==> ok
    {
      ShardHasMembers(members, ids[n]);
      SoundShard(members, ids[n]);
      ok := CreateShard(ids[n], router, OfShard(members, ids[n]), rounds);
      if ok { FlattenNext(parts, n, start, old(log)); } else { FlattenPrefix(parts, n, start, old(log), log); }
    }

    method TellAll(members: seq<Instance>) returns (ok: bool)
      modifies this`log
      ensures old(AllSeen()) ==> AllSeen()
      ensures old(log) <= log <= old(log) + TellTrace(members, |members|)
      ensures ok <==> log == old(log) + TellTrace(members, |members|)
      ensures !faulty ==> ok
    {
      for n := 0 to |members|
        invariant log == old(log) + TellTrace(members, n)
        invariant old(AllSeen()) ==> AllSeen()
      {
        var raised := Raises();
        if raised {
          TellPrefix(members, n);
          return false;
        }
        log := log + [Told(members[n].id)];
      }
      ok := true;
    }

    /** Creation, up to the completion calls. */
    method Create(instances: seq<Instance>, rounds: nat) returns (ok: bool)
      modifies this`log, this`reports
      ensures old(AllSeen()) ==> AllSeen()
      ensures old(log) <= log <= old(log) + CreateWork(instances)
      ensures ok ==> log == old(log) + CreateWork(instances) && Complete(instances)
      ensures !faulty && rounds > lag && Complete(instances) && Sound(instances) ==> ok
    {
      if !IsSharded(instances) {
        ok := InitializeReplicaSet(Whole, instances, rounds);
      } else {
        ok := CreateSharded(OfKind(instances, ConfigServer), OfKind(instances, QueryRouter),
          OfKind(instances, Member), rounds);
        SoundKind(instances, ConfigServer);
        SoundKind(instances, Member);
      }
    }

    method CreateSharded(configs: seq<Instance>, routers: seq<Instance>, members: seq<Instance>, rounds: nat)
      returns (ok: bool)
      modifies this`log, this`reports
      ensures old(AllSeen()) ==> AllSeen()
      ensures var work := InitTrace(Configs, configs)
              + (RoutersTrace(routers, configs) + AllShardsTrace(routers, members));
              old(log) <= log <= old(log) + work && (ok ==> log == old(log) + work)
      ensures ok ==> configs != [] && routers != []
      ensures !faulty && rounds > lag && configs != [] && routers != [] && Sound(configs) && Sound(members) ==> ok
    {
      ghost var a, b, c := InitTrace(Configs, configs), RoutersTrace(routers, configs),
        AllShardsTrace(routers, members);
      ok := InitializeReplicaSet(Configs, configs, rounds);
      PrefixEarly(old(log), a, log, b + c);
      ok := ok && routers != [];
      if ok { ok := ConfigureThenShards(routers, routers, configs, members, rounds, old(log) + a); }
      PrefixLate(old(log), a, log, b + c);
    }

    /** Routers first, then shards through the first of all routers. */
    method ConfigureThenShards(recent: seq<Instance>, routers: seq<Instance>, configs: seq<Instance>,
                               members: seq<Instance>, rounds: nat, ghost start: seq<Event>)
      returns (ok: bool)
      requires log == start
      modifies this`log, this`reports
      ensures old(AllSeen()) ==> AllSeen()
      ensures var work := RoutersTrace(recent, configs) + AllShardsTrace(routers, members);
              start <= log <= start + work && (ok ==> log == start + work)
      ensures ok ==> (recent != [] ==> configs != []) && (members != [] ==> routers != [])
      ensures (!faulty && rounds > lag && (recent != [] ==> configs != [] && Sound(configs))
               && (members != [] ==> routers != []) && Sound(members)) ==> ok
    {
      ghost var b, c := RoutersTrace(recent, configs), AllShardsTrace(routers, members);
      ok := true;
      if recent != [] { ok := ConfigureQueryRouters(recent, configs); }
      PrefixEarly(start, b, log, c);
      if ok { ok := ShardsIfAny(routers, members, rounds); }
      PrefixLate(start, b, log, c);
    }

    method ShardsIfAny(routers: seq<Instance>, members: seq<Instance>, rounds: nat) returns (ok: bool)
      modifies this`log, this`reports
      ensures old(AllSeen()) ==> AllSeen()
      ensures old(log) <= log <= old(log) + AllShardsTrace(routers, members)
      ensures ok ==> log == old(log) + AllShardsTrace(routers, members) && (members != [] ==> routers != [])
      ensures !faulty && rounds > lag && (members != [] ==> routers != []) && Sound(members) ==> ok
    {
      if members == [] { return true; }
      if routers == [] { return false; }
      ok := CreateShards(routers, members, rounds);
    }

    /** Growth, up to the completion calls. */
    method Grow(existing: seq<Instance>, added: seq<Instance>, rounds: nat) returns (ok: bool)
      modifies this`log, this`reports
      ensures old(AllSeen()) ==> AllSeen()
      ensures old(log) <= log <= old(log) + GrowWork(existing, added)
      ensures ok ==> log == old(log) + GrowWork(existing, added) && Growable(existing, added)
      ensures !faulty && rounds > lag && Growable(existing, added) && Sound(existing) && Sound(added) ==> ok
    {
      if existing == [] { return false; }
      if !IsSharded(existing + added) {
        ok := AddReplicaMembers(existing[0].id, added, rounds);
      } else {
        var recent := OfKind(added, QueryRouter);
        ok := ConfigureThenShards(recent, OfKind(existing, QueryRouter) + recent, OfKind(existing, ConfigServer),
                                  OfKind(added, Member), rounds, log);
        SoundKind(existing, ConfigServer);
        SoundKind(added, Member);
      }
    }

    method AddReplicaMembers(leader: nat, added: seq<Instance>, rounds: nat) returns (ok: bool)
      modifies this`log, this`reports
      ensures old(AllSeen()) ==> AllSeen()
      ensures var work := [Joined(leader, Addresses(added)), Ready(Whole, Addresses(added))];
              old(log) <= log <= old(log) + work && (ok <==> log == old(log) + work)
      ensures ok ==> AllVisible(added)
      ensures !faulty && rounds > lag && AllVisible(added) ==> ok
    {
      if !AllVisible(added) { return false; }
      var raised := Raises();
      if raised { return false; }
      log := log + [Joined(leader, Addresses(added))];
      ok := AwaitGroup(Whole, Addresses(added), rounds);
    }

    /** _run_with_timeout after the operation. */
    method Finish(ready: bool, reset: bool) returns (r: Ending)
      modifies this`status, this`failed
      ensures r.Reset? <==> reset
      ensures status == (if r.Reset? then NoTask else old(status)) && failed == (old(failed) || r.MarkedFailed?)
      ensures r.Reraised? ==> ready && faulty
    {
      if reset {
        status := NoTask;
        return Reset;
      }
      var foreignTimeout: bool := *;
      if ready && faulty && foreignTimeout { return Reraised; }
      failed := true;
      r := MarkedFailed;
    }

    /** create_cluster. A run that clears the task has made exactly the calls of CreateTrace; any other has
        made the first few of them, in the same order, and marks the cluster failed or raises a timeout again. */
    method CreateCluster(instances: seq<Instance>, ready: bool, rounds: nat) returns (r: Ending)
      modifies this
      ensures old(AllSeen()) ==> AllSeen()
      ensures old(log) <= log <= old(log) + CreateTrace(instances)
      ensures instances != [] ==> (r.Reset? <==> log == old(log) + CreateTrace(instances))
      ensures status == (if r.Reset? then NoTask else old(status)) && failed == (old(failed) || r.MarkedFailed?)
      ensures r.Reset? ==> ready && Complete(instances)
      ensures !faulty && ready && rounds > lag && Complete(instances) && Sound(instances) ==> r.Reset?
    {
      var reset := false;
      if ready {
        reset := Create(instances, rounds);
        PrefixEarly(old(log), CreateWork(instances), log, TellTrace(instances, |instances|));
        TellsAre(instances, |instances|);
        if reset { reset := TellAll(instances); }
        PrefixLate(old(log), CreateWork(instances), log, TellTrace(instances, |instances|));
      }
      r := Finish(ready, reset);
    }

    /** grow_cluster, with the same guarantee. */
    method GrowCluster(existing: seq<Instance>, added: seq<Instance>, ready: bool, rounds: nat) returns (r: Ending)
      modifies this
      ensures old(AllSeen()) ==> AllSeen()
      ensures old(log) <= log <= old(log) + GrowTrace(existing, added)
      ensures added != [] ==> (r.Reset? <==> existing != [] && log == old(log) + GrowTrace(existing, added))
      ensures status == (if r.Reset? then NoTask else old(status)) && failed == (old(failed) || r.MarkedFailed?)
      ensures r.Reset? ==> ready && Growable(existing, added)
      ensures !faulty && ready && rounds > lag && Growable(existing, added) && Sound(existing) && Sound(added)
              ==> r.Reset?
    {
      var reset := false;
      if ready {
        reset := Grow(existing, added, rounds);
        PrefixEarly(old(log), GrowWork(existing, added), log, TellTrace(added, |added|));
        TellsAre(added, |added|);
        if reset { reset := TellAll(added); }
        PrefixLate(old(log), GrowWork(existing, added), log, TellTrace(added, |added|));
      }
      r := Finish(ready, reset);
    }
  }

  /** Growth needs an existing member; in a sharded cluster new routers need config servers and new members
      a router. */
  predicate Growable(existing: seq<Instance>, added: seq<Instance>) {
    && existing != []
    && (IsSharded(existing + added) ==>
         && (OfKind(added, QueryRouter) != [] ==> OfKind(existing, ConfigServer) != [])
         && (OfKind(added, Member) != [] ==> OfKind(existing, QueryRouter) + OfKind(added, QueryRouter) != []))
  }

  /** Creation needs members, and in a sharded cluster config servers and routers. */
  predicate Complete(instances: seq<Instance>) {
    && instances != []
    && (IsSharded(instances) ==> OfKind(instances, ConfigServer) != [] && OfKind(instances, QueryRouter) != [])
  }

  lemma SoundKind(instances: seq<Instance>, k: Kind)
    ensures Sound(instances) ==> Sound(OfKind(instances, k))
  {
    forall x | x in OfKind(instances, k)
      ensures x in instances
    {
      FilterMember(instances, (x: Instance) => x.kind == k, x);
    }
  }

  lemma PrefixEarly(start: seq<Event>, a: seq<Event>, log: seq<Event>, b: seq<Event>)
    ensures start <= log <= start + a ==> log <= start + (a + b)
  {
    assert start + (a + b) == start + a + b;
  }

  lemma PrefixLate(start: seq<Event>, a: seq<Event>, log: seq<Event>, b: seq<Event>)
    ensures start + a <= log <= start + a + b ==> start <= log <= start + (a + b)
    ensures log == start + a + b ==> log == start + (a + b)
  {
    assert start + (a + b) == start + a + b;
  }

  lemma ShardPrefix(before: seq<Event>, shard: nat, router: nat, members: seq<Instance>)
    requires members != []
    ensures before + InitTrace(Shard(shard), members) <= before + ShardTrace(shard, router, members)
    ensures before + InitTrace(Shard(shard), members) != before + ShardTrace(shard, router, members)
  {
    assert before + ShardTrace(shard, router, members)
           == before + InitTrace(Shard(shard), members)
             + [Registered(shard, router, members[0].setName, members[0].address)];
  }

  lemma SoundShard(members: seq<Instance>, s: nat)
    ensures Sound(members) ==> Sound(OfShard(members, s))
  {
    forall x | x in OfShard(members, s)
      ensures x in members
    {
      FilterMember(members, (x: Instance) => x.shard == s, x);
    }
  }

  lemma FlattenNext(parts: seq<seq<Event>>, n: nat, start: seq<Event>, before: seq<Event>)
    requires n < |parts| && before == start + Flatten(parts, n)
    ensures before + parts[n] == start + Flatten(parts, n + 1)
  {
  }

  /** Part n was not completed, so neither was the whole. */
  lemma {:induction false} FlattenPrefix(parts: seq<seq<Event>>, n: nat, start: seq<Event>, before: seq<Event>,
                                         log: seq<Event>)
    requires n < |parts| && before == start + Flatten(parts, n) && before <= log < before + parts[n]
    ensures start <= log < start + Flatten(parts, |parts|)
  {
    assert before + parts[n] == start + Flatten(parts, n + 1);
    FlattenGrows(parts, n + 1, |parts|);
  }

  lemma {:induction false} FlattenGrows(parts: seq<seq<Event>>, n: nat, m: nat)
    requires n <= m <= |parts|
    ensures Flatten(parts, n) <= Flatten(parts, m)
  {
    if n < m { FlattenGrows(parts, n, m - 1); }
  }

  lemma RouterPrefix(routers: seq<Instance>, addresses: seq<string>, n: nat)
    requires n < |routers|
    ensures RouterTrace(routers, addresses, n) < RouterTrace(routers, addresses, |routers|)
  {
    RoutersAre(routers, addresses, n);
    RoutersAre(routers, addresses, |routers|);
  }

  lemma TellPrefix(members: seq<Instance>, n: nat)
    requires n < |members|
    ensures TellTrace(members, n) < TellTrace(members, |members|)
  {
    TellsAre(members, n);
    TellsAre(members, |members|);
  }

  // ---------- What a run that cleared the task has seen ----------

  /** The wait for each shard is in a trace that is in order. */
  lemma ReadyInTrace(t: seq<Event>, routers: seq<Instance>, recent: seq<Instance>, configs: seq<Instance>,
                     members: seq<Instance>, told: seq<Instance>, x: Instance)
    requires routers != [] && InOrder(t, routers, recent, configs, members, told) && x in members
    ensures Ready(Shard(x.shard), Addresses(OfShard(members, x.shard))) in t
  {
    var s, mine := x.shard, OfShard(members, x.shard);
    FilterMember(members, (y: Instance) => y.shard == s, x);
    var e := Ready(Shard(s), Addresses(mine));
    assert ShardTrace(s, routers[0].id, mine)[1] == e;
    FilterMember(t, About(s), e);
  }

  /** After a creation the config servers were seen ready, all in one answer, and so were the members of every
      shard. */
  lemma CreatedSeenReady(instances: seq<Instance>, start: seq<Event>, reports: seq<Report>, x: Instance)
    requires DistinctIds(instances)
    requires OfKind(instances, ConfigServer) != [] && OfKind(instances, QueryRouter) != []
    requires Witnessed(start + CreateTrace(instances), reports)
    ensures SeenInOne(reports, Addresses(OfKind(instances, ConfigServer)))
    ensures x in OfKind(instances, Member) ==>
              SeenInOne(reports, Addresses(OfShard(OfKind(instances, Member), x.shard)))
  {
    var configs, routers := OfKind(instances, ConfigServer), OfKind(instances, QueryRouter);
    var members, t := OfKind(instances, Member), CreateTrace(instances);
    ShardedCreation(instances);
    assert InitTrace(Configs, configs)[1] == t[1] && t[1] in start + t;
    if x in members {
      ReadyInTrace(t, routers, routers, configs, members, instances, x);
      assert Ready(Shard(x.shard), Addresses(OfShard(members, x.shard))) in start + t;
    }
  }

  /** After a growth the members of every new shard were. */
  lemma GrownSeenReady(existing: seq<Instance>, added: seq<Instance>, start: seq<Event>, reports: seq<Report>,
                       x: Instance)
    requires existing != [] && DistinctIds(added) && IsSharded(existing + added)
    requires OfKind(existing, QueryRouter) + OfKind(added, QueryRouter) != [] && x in OfKind(added, Member)
    requires Witnessed(start + GrowTrace(existing, added), reports)
    ensures SeenInOne(reports, Addresses(OfShard(OfKind(added, Member), x.shard)))
  {
    var recent := OfKind(added, QueryRouter);
    var t := GrowTrace(existing, added);
    ShardedGrowth(existing, added);
    ReadyInTrace(t, OfKind(existing, QueryRouter) + recent, recent, OfKind(existing, ConfigServer),
                 OfKind(added, Member), added, x);
    assert Ready(Shard(x.shard), Addresses(OfShard(OfKind(added, Member), x.shard))) in start + t;
  }
}
