// Running a deletion plan against a cloud that refuses to delete what is still in use
// (delete-project-resources.py, execute_plan, delete_router, wait_for_stack_delete and
// delete_senlin_resource).

module PlanExecution {
  import opened DeletionPlan
  import opened PlanOrder

  /** Who uses what: uses(a, b) means b cannot go while a is there. */
  type Uses = (Key, Key) -> bool

  /** What asking for a resource tells. */
  datatype Sight = Gone | Visible | Unclear

  /** The answer to a delete request that is carried out later. */
  datatype Reply = TakenUp | NotThere | Refused

  const SENLIN_KINDS := {"cluster", "node", "policy", "profile", "receiver"}

  class Cloud {
    var present: set<Key>
    var deleting: map<Key, nat>   // taken up, but perhaps still there for so many more looks
    var ports: set<(Key, nat)>    // routers and the ports attached to them
    var gateways: set<Key>        // routers with an external gateway
    const uses: Uses
    const healthy: bool           // a healthy cloud fails a request only when the resource is in use
    const lag: nat                // and lets a deletion be seen under way at most so often

    constructor (present: set<Key>, ports: set<(Key, nat)>, gateways: set<Key>, uses: Uses, healthy: bool, lag: nat)
      ensures this.present == present && this.ports == ports && this.gateways == gateways
      ensures this.uses == uses && this.healthy == healthy && this.lag == lag
    {
      this.present, deleting := present, map[];
      this.ports, this.gateways := ports, gateways;
      this.uses := uses;
      this.healthy := healthy;
      this.lag := lag;
    }

    ghost predicate InUse(k: Key)
      reads this
    {
      exists a :: a in present && a != k && uses(a, k)
    }

    /** Nothing is attached to it. */
    predicate Free(k: Key)
      reads this
    {
      k !in gateways && forall a :: a in ports ==> a.0 != k
    }

    /** One delete request. A missing resource counts as deleted; one that is in use or has something attached is
        refused; deleting may take further resources along; nothing is ever created. */
    method Delete(k: Key) returns (ok: bool)
      modifies this`present
      ensures present <= old(present)
      ensures ok ==> k !in present
      ensures ok && k in old(present) ==> !old(InUse(k)) && Free(k)
      ensures healthy && !old(InUse(k)) && Free(k) ==> ok
    {
      var refused := k in present && ((exists a | a in present :: a != k && uses(a, k)) || !Free(k));
      var fails: bool := *;
      if refused || (fails && !healthy) { return false; }
      var cascade: set<Key> := *;
      present := present - {k} - cascade;
      return true;
    }

    /** A delete request that the service takes up and carries out later. */
    method StartDelete(k: Key) returns (r: Reply)
      modifies this`present, this`deleting
      ensures present <= old(present)
      ensures r.TakenUp? ==> k in deleting && deleting[k] == lag
      ensures r.NotThere? ==> k !in present
      ensures healthy && !old(InUse(k)) ==> !r.Refused?
    {
      var refused := exists a | a in present :: a != k && uses(a, k);
      var fails: bool := *;
      if refused || (fails && !healthy) { return Reply.Refused; }
      if k !in present { return NotThere; }
      var cascade: set<Key> := *;
      present, deleting := present - cascade, deleting[k := lag];
      return TakenUp;
    }

    /** Looking a resource up: resources may have gone by now, and what is reported gone is gone. A healthy cloud
        answers, and comes closer with every look to the end of a deletion it took up, once nothing uses the
        resource. */
    method Look(k: Key) returns (s: Sight)
      modifies this`present, this`deleting
      ensures present <= old(present)
      ensures s.Gone? ==> k !in present
      ensures healthy ==> !s.Unclear?
      ensures healthy && k !in old(present) ==> s.Gone?
      ensures (healthy && k in old(deleting) && !old(InUse(k))) ==>
                s.Gone? || (k in deleting && deleting[k] < old(deleting[k]))
    {
      var used := exists a | a in present :: a != k && uses(a, k);
      var vanished: set<Key> := *;
      present := present - vanished;
      if healthy && k in deleting && !used {
        if deleting[k] == 0 {
          present := present - {k};
        } else {
          deleting := deleting[k := deleting[k] - 1];
        }
      }
      var answers: bool := *;
      if !answers && !healthy { return Unclear; }
      s := if k in present then Visible else Gone;
    }

    /** The ports of a router; a missing router has none. */
    method ListPorts(k: Key) returns (ok: bool, found: seq<nat>)
      ensures ok ==> forall p :: (k, p) in ports ==> p in found
      ensures healthy ==> ok
    {
      ok, found := *, *;
      if ok || healthy {
        ok := true;
        var left := ports;
        found := [];
        while left != {}
          invariant left <= ports
          invariant forall p :: (k, p) in ports - left ==> p in found
        {
          var a :| a in left;
          if a.0 == k { found := found + [a.1]; }
          left := left - {a};
        }
      }
    }

    /** router remove port; a port that is not attached counts as removed. */
    method RemovePort(k: Key, p: nat) returns (ok: bool)
      modifies this`ports
      ensures ports == if ok then old(ports) - {(k, p)} else old(ports)
      ensures healthy ==> ok
    {
      var fails: bool := *;
      ok := healthy || !fails;
      if ok { ports := ports - {(k, p)}; }
    }

    /** router unset --external-gateway. */
    method UnsetGateway(k: Key) returns (ok: bool)
      modifies this`gateways
      ensures gateways == if ok then old(gateways) - {k} else old(gateways)
      ensures healthy ==> ok
    {
      var fails: bool := *;
      ok := healthy || !fails;
      if ok { gateways := gateways - {k}; }
    }

    /** Any other request made on the way: it deletes nothing and may fail on an unhealthy cloud. */
    method Request() returns (ok: bool)
      ensures healthy ==> ok
    {
      var fails: bool := *;
      ok := healthy || !fails;
    }
  }

  datatype Error = Error(key: Key)

  /** delete_router: list the ports, detach each, clear the gateway, delete. Only a failed port list
      ends it early. */
  method DeleteRouter(cloud: Cloud, k: Key) returns (errors: seq<Error>)
    modifies cloud
    ensures cloud.present <= old(cloud.present)
    ensures cloud.ports <= old(cloud.ports) && forall a :: a in old(cloud.ports) - cloud.ports ==> a.0 == k
    ensures old(cloud.gateways) - {k} <= cloud.gateways <= old(cloud.gateways)
    ensures errors == [] ==> k !in cloud.present
    ensures cloud.healthy && !old(cloud.InUse(k)) ==> errors == []
  {
    errors := [];
    var listed, found := cloud.ListPorts(k);
    if !listed { return [Error(k)]; }
    for n := 0 to |found|
      invariant cloud.present == old(cloud.present) && cloud.gateways == old(cloud.gateways)
      invariant cloud.ports <= old(cloud.ports) && forall a :: a in old(cloud.ports) - cloud.ports ==> a.0 == k
      invariant cloud.healthy ==> errors == [] && forall p :: (k, p) in cloud.ports ==> p in found[n..]
    {
      var removed := cloud.RemovePort(k, found[n]);
      if !removed { errors := errors + [Error(k)]; }
    }
    var unset := cloud.UnsetGateway(k);
    if !unset { errors := errors + [Error(k)]; }
    assert cloud.healthy ==> cloud.Free(k);
    var deleted := cloud.Delete(k);
    if !deleted { errors := errors + [Error(k)]; }
  }

  /** wait_for_stack_delete: looks until the stack is gone, its deletion has failed, the look fails, or the
      time is up. `rounds` is how often the clock reads before the deadline. */
  method WaitForStackDelete(cloud: Cloud, k: Key, rounds: nat) returns (errors: seq<Error>)
    modifies cloud`present, cloud`deleting
    ensures cloud.present <= old(cloud.present)
    ensures errors == [] ==> k !in cloud.present
    ensures cloud.healthy && rounds > 0 && k !in old(cloud.present) ==> errors == []
    ensures (cloud.healthy && k in old(cloud.deleting) && rounds > old(cloud.deleting[k]) && !old(cloud.InUse(k)))
            ==> errors == []
  {
    for round := 0 to rounds
      invariant cloud.present <= old(cloud.present)
      invariant cloud.healthy && k !in old(cloud.present) ==> round == 0
      invariant (cloud.healthy && k in old(cloud.deleting) && !old(cloud.InUse(k))) ==>
                  k in cloud.deleting && round + cloud.deleting[k] <= old(cloud.deleting[k])
    {
      var sight := cloud.Look(k);
      if sight.Gone? { return []; }
      if sight.Unclear? { return [Error(k)]; }
      var failed: bool := *;
      if failed && !cloud.healthy { return [Error(k)]; }
    }
    errors := [Error(k)];
  }

  /** A stack is deleted and then waited for. */
  method DeleteStack(cloud: Cloud, k: Key, rounds: nat) returns (errors: seq<Error>)
    modifies cloud`present, cloud`deleting
    ensures cloud.present <= old(cloud.present)
    ensures errors == [] ==> k !in cloud.present
    ensures cloud.healthy && rounds > cloud.lag && !old(cloud.InUse(k)) ==> errors == []
  {
    var reply := cloud.StartDelete(k);
    if reply.Refused? { return [Error(k)]; }
    errors := WaitForStackDelete(cloud, k, rounds);
  }

  /** delete_senlin_resource: a resource already gone needs nothing; otherwise it is deleted and looked up
      until it is gone, the look or the deletion's action fails, or the time is up. */
  method DeleteSenlin(cloud: Cloud, k: Key, rounds: nat) returns (errors: seq<Error>)
    modifies cloud`present, cloud`deleting
    ensures cloud.present <= old(cloud.present)
    ensures errors == [] ==> k !in cloud.present
    ensures cloud.healthy && rounds > cloud.lag && k.1 in SENLIN_KINDS && !old(cloud.InUse(k)) ==> errors == []
  {
    if k.1 !in SENLIN_KINDS { return [Error(k)]; }
    var sight := cloud.Look(k);
    if sight.Gone? { return []; }
    if sight.Unclear? { return [Error(k)]; }
    var reply := cloud.StartDelete(k);
    if reply.NotThere? { return []; }
    if reply.Refused? { return [Error(k)]; }
    errors := WaitForSenlin(cloud, k, rounds);
  }

  method WaitForSenlin(cloud: Cloud, k: Key, rounds: nat) returns (errors: seq<Error>)
    modifies cloud`present, cloud`deleting
    ensures cloud.present <= old(cloud.present)
    ensures errors == [] ==> k !in cloud.present
    ensures (cloud.healthy && k in old(cloud.deleting) && rounds > old(cloud.deleting[k]) && !old(cloud.InUse(k)))
            ==> errors == []
  {
    for round := 0 to rounds
      invariant cloud.present <= old(cloud.present)
      invariant (cloud.healthy && k in old(cloud.deleting) && !old(cloud.InUse(k))) ==>
                  k in cloud.deleting && round + cloud.deleting[k] <= old(cloud.deleting[k])
    {
      var sight := cloud.Look(k);
      if sight.Gone? { return []; }
      if sight.Unclear? { return [Error(k)]; }
      var actionFailed: bool := *;
      if actionFailed && !cloud.healthy { return [Error(k)]; }
    }
    errors := [Error(k)];
  }

  ghost predicate PhasesRespectUses(plan: seq<Operation>, uses: Uses) {
    forall a, b :: (a in plan && b in plan && uses(KeyOf(a.resource), KeyOf(b.resource))) ==> a.phase < b.phase
  }

  /** Whatever is there and uses something planned is planned itself. */
  ghost predicate UsersPlanned(plan: seq<Operation>, present: set<Key>, uses: Uses) {
    forall a, op :: (a in present && op in plan && a != KeyOf(op.resource) && uses(a, KeyOf(op.resource)))
                    ==> exists x :: x in plan && KeyOf(x.resource) == a
  }

  /** The clustering resources planned are of kinds that can be deleted. */
  ghost predicate SenlinSupported(plan: seq<Operation>) {
    forall op :: op in plan && op.resource.service == "clustering" ==> op.resource.kind in SENLIN_KINDS
  }

  /** Only routers have ports attached and gateways. */
  ghost predicate OnRoutersOnly(cloud: Cloud)
    reads cloud
  {
    && (forall a :: a in cloud.ports ==> a.0.1 == "router" && a.0.0 != "clustering")
    && (forall k :: k in cloud.gateways ==> k.1 == "router" && k.0 != "clustering")
  }

  /** With nothing planned before step i left, operation i is not refused. */
  lemma NextNotInUse(plan: seq<Operation>, i: nat, cloud: Cloud, start: set<Key>)
    requires i < |plan| && StrictlySorted(plan)
    requires PhasesRespectUses(plan, cloud.uses) && UsersPlanned(plan, start, cloud.uses)
    requires cloud.present <= start && forall j :: 0 <= j < i ==> KeyOf(plan[j].resource) !in cloud.present
    ensures !cloud.InUse(KeyOf(plan[i].resource))
  {
    var k := KeyOf(plan[i].resource);
    forall a | a in cloud.present && a != k ensures !cloud.uses(a, k) {
      if cloud.uses(a, k) {
        assert plan[i] in plan;
        var x :| x in plan && KeyOf(x.resource) == a;
        var j :| 0 <= j < |plan| && plan[j] == x;
        UserComesFirst(plan, cloud.uses, j, i);
      }
    }
  }

  lemma UserComesFirst(plan: seq<Operation>, uses: Uses, j: nat, i: nat)
    requires i < |plan| && j < |plan| && StrictlySorted(plan) && PhasesRespectUses(plan, uses)
    requires uses(KeyOf(plan[j].resource), KeyOf(plan[i].resource))
    ensures j < i
  {
    assert plan[i] in plan && plan[j] in plan;
  }

  /** execute_plan. An empty error list means that everything planned is gone, whatever failed on the
      way. On a healthy cloud, when phases respect the uses between resources, nothing is refused. */
  method ExecutePlan(cloud: Cloud, plan: seq<Operation>, rounds: nat) returns (errors: seq<Error>)
    modifies cloud
    ensures cloud.present <= old(cloud.present)
    ensures errors == [] ==> forall op :: op in plan ==> KeyOf(op.resource) !in cloud.present
    ensures (cloud.healthy && rounds > cloud.lag && StrictlySorted(plan) && PhasesRespectUses(plan, cloud.uses)
             && UsersPlanned(plan, old(cloud.present), cloud.uses) && SenlinSupported(plan)
             && old(OnRoutersOnly(cloud))) ==> errors == []
  {
    errors := [];
    var clustering := false;
    ghost var good := cloud.healthy && rounds > cloud.lag && StrictlySorted(plan) && PhasesRespectUses(plan, cloud.uses)
                      && UsersPlanned(plan, old(cloud.present), cloud.uses) && SenlinSupported(plan)
                      && OnRoutersOnly(cloud);
    for i := 0 to |plan|
      invariant cloud.present <= old(cloud.present)
      invariant errors == [] ==> forall j :: 0 <= j < i ==> KeyOf(plan[j].resource) !in cloud.present
      invariant good ==> errors == [] && OnRoutersOnly(cloud)
    {
      var k := KeyOf(plan[i].resource);
      if good { NextNotInUse(plan, i, cloud, old(cloud.present)); }
      ghost var before := cloud.present;
      var more: seq<Error>;
      if k.0 == "clustering" {
        if !clustering { clustering := cloud.Request(); }
        if clustering { more := DeleteSenlin(cloud, k, rounds); } else { more := [Error(k)]; }
      } else if k.1 == "router" {
        more := DeleteRouter(cloud, k);
      } else if k.0 == "orchestration" && k.1 == "stack" {
        more := DeleteStack(cloud, k, rounds);
      } else {
        var ok := cloud.Delete(k);
        more := if ok then [] else [Error(k)];
      }
      assert cloud.present <= before;
      errors := errors + more;
    }
  }
}
