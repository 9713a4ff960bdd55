// Shrinking a replica-set cluster: the controller's retry loop (controller/api.py, MongoDbCluster.shrink)
// together with the guest call it makes (service.py, MongoDbApp.remove_replica_members).

module ReplicaShrink {
  import Topology

  type Id = nat

  const MIN_REPLICA_SET_MEMBERS := 2

  datatype Task = NoTask | Shrinking | OtherTask

  /** What the outside world can observe, each with the state it happened in. */
  datatype Event =
    | MemberRemoved(host: string, primaryThen: string)
    | Detached(id: Id, configThen: set<string>)
    | Deleted(id: Id, configThen: set<string>)

  datatype Reply = Raised | SteppedDown | Removed

  datatype Result = Busy | NotFound | TooFewLeft | Unreachable | NoPrimary | NovaFailed | Done

  // ---------- Addresses ----------

  function IndexOf(s: string, c: char): (i: nat)
    ensures i <= |s| && c !in s[..i] && (i < |s| ==> s[i] == c)
  {
    if s == "" || s[0] == c then 0 else 1 + IndexOf(s[1..], c)
  }

  function Count(s: string, c: char): nat {
    if s == "" then 0 else (if s[0] == c then 1 else 0) + Count(s[1..], c)
  }

  /** The host part handed to mongosh: brackets and a single port suffix are dropped. */
  function MongoshHost(h: string): string {
    if h != "" && h[0] == '[' && ']' in h then h[1..IndexOf(h, ']')]
    else if Count(h, ':') == 1 then h[..IndexOf(h, ':')]
    else h
  }

  lemma CountJoin(s: string, t: string, c: char)
    ensures Count(s + t, c) == Count(s, c) + Count(t, c)
  {
    if s == "" {
      assert s + t == t;
    } else {
      assert (s + t)[1..] == s[1..] + t;
    }
  }

  lemma CountNone(s: string, c: char)
    requires c !in s
    ensures Count(s, c) == 0
  {
  }

  predicate Bracketed(h: string) { h != "" && h[0] == '[' }

  predicate Has(h: string, c: char) { c in h }

  const COLON := ':'
  const CLOSING := ']'

  /** A name or an IPv4 address loses its port. */
  lemma NamedHost(name: string, port: string)
    requires name != "" && !Bracketed(name) && !Has(name, COLON) && !Has(port, COLON)
    ensures MongoshHost(name + ":" + port) == name && MongoshHost(name) == name
  {
    var all := name + ":" + port;
    CountJoin(name + ":", port, ':');
    CountJoin(name, ":", ':');
    CountNone(name, ':');
    CountNone(port, ':');
    assert all[..|name|] == name && all[|name|] == ':';
  }

  /** An IPv6 address loses its brackets and what follows them; a bare one stays as it is. */
  lemma NumberedHost(address: string, rest: string)
    requires address != "" && !Bracketed(address) && !Has(address, CLOSING) && Count(address, COLON) > 1
    ensures MongoshHost("[" + address + "]" + rest) == address && MongoshHost(address) == address
  {
    var all := "[" + address + "]" + rest;
    assert all[0] == '[' && all[1..|address|+1] == address && all[|address|+1] == ']';
    assert all[..|address|+1] == "[" + address;
  }

  predicate HostMatches(l: string, r: string) { l == r || MongoshHost(l) == MongoshHost(r) }

  /** What a member says of itself and of its primary; empty when it says nothing. */
  datatype Hello = Hello(me: string, primary: string, writable: bool)

  function PrimaryHost(hello: Hello): string {
    if hello.writable && hello.me != "" then hello.me else hello.primary
  }

  predicate StepsDown(hello: Hello, hosts: seq<string>) {
    exists host | host in hosts :: HostMatches(PrimaryHost(hello), host)
  }

  /** What one guest call meets: whether it gets through, what hello says, which node mongosh then reaches,
      whether the output can be read, and, when the script comes to host k, which node is primary and whether
      rs.remove fails. */
  datatype Call = Call(fails: bool, hello: Hello, node: string, readable: bool,
                       primaryAt: nat -> string, refuses: nat -> bool)

  /** The call reaches a node. mongosh dials the host part of the primary; whoever answers has that host part. */
  predicate Reaches(call: Call) {
    !call.fails && PrimaryHost(call.hello) != "" && MongoshHost(call.node) == MongoshHost(PrimaryHost(call.hello))
  }

  /** A node told to step down gives output that is no JSON dictionary. */
  predicate Misreads(call: Call, hosts: seq<string>) {
    Reaches(call) && StepsDown(call.hello, hosts) && !call.readable
  }

  /** Such a call: the one host to remove is the writable primary, whatever it believes of others, and its
      shell prints a warning first. */
  lemma MisreadHappens(host: string, other: string)
    requires host != ""
    ensures Misreads(Call(false, Hello(host, other, true), host, false, (k: nat) => host, (k: nat) => false), [host])
  {
    assert host in [host] && HostMatches(host, host);
  }

  /** A call to a secondary goes to the primary that it names, and nowhere when it names none. */
  lemma SecondaryRoutes(me: string, primary: string, node: string, at: nat -> string, refuses: nat -> bool)
    ensures primary != "" ==> Reaches(Call(false, Hello(me, primary, false), primary, true, at, refuses))
    ensures !Reaches(Call(false, Hello(me, "", false), node, true, at, refuses))
  {
  }

  /** The node is primary whenever a host that is still a member is to go, and none of these removals fails. A
      host that is no member needs neither. */
  predicate Removable(call: Call, config: set<string>, hosts: seq<string>) {
    forall k :: 0 <= k < |hosts| && hosts[k] in config && hosts[k] !in hosts[..k] ==>
      call.primaryAt(k) == call.node && !call.refuses(k)
  }

  /** The call reaches a node that stays and can remove all that is left of the hosts. */
  predicate Completes(call: Call, config: set<string>, hosts: seq<string>) {
    Reaches(call) && !StepsDown(call.hello, hosts) && Removable(call, config, hosts)
  }

  /** A call that could finish the removal still can after some hosts have gone. */
  lemma CompletesLater(call: Call, config: set<string>, later: set<string>, hosts: seq<string>)
    requires later <= config && Completes(call, config, hosts)
    ensures Completes(call, later, hosts)
  {
  }

  /** In particular any node that is primary throughout and fails no removal, and any that finds nothing left. */
  lemma SteadyCompletes(call: Call, config: set<string>, hosts: seq<string>)
    requires Reaches(call) && !StepsDown(call.hello, hosts)
    requires config !! Elements(hosts)
             || forall k :: 0 <= k < |hosts| ==> call.primaryAt(k) == call.node && !call.refuses(k)
    ensures Completes(call, config, hosts)
  {
    assert forall k :: 0 <= k < |hosts| ==> hosts[k] in Elements(hosts);
  }

  lemma NoneCompletes(calls: (nat, nat) -> Call, round: nat, n: nat, config: set<string>, before: set<string>,
                      hosts: seq<string>)
    requires before <= config && !SomeCompletes(calls, round, n, config, hosts)
    requires forall k :: 0 <= k < n ==> !Completes(calls(round, k), before, hosts)
    ensures !SomeCompletes(calls, round + 1, n, config, hosts)
  {
    forall i, k | 0 <= i <= round && 0 <= k < n ensures !Completes(calls(i, k), config, hosts) {
      if i == round && Completes(calls(i, k), config, hosts) { CompletesLater(calls(i, k), config, before, hosts); }
    }
  }

  /** Some call to one of n candidates within the given rounds finishes the removal. */
  predicate SomeCompletes(calls: (nat, nat) -> Call, rounds: nat, n: nat, config: set<string>, hosts: seq<string>) {
    exists i, k :: 0 <= i < rounds && 0 <= k < n && Completes(calls(i, k), config, hosts)
  }

  predicate SomeMisread(calls: (nat, nat) -> Call, rounds: nat, n: nat, hosts: seq<string>) {
    exists i, k :: 0 <= i < rounds && 0 <= k < n && Misreads(calls(i, k), hosts)
  }

  /** A node reached through a primary address that matches none of the hosts is none of them. */
  lemma NodeStays(node: string, primaryHost: string, hosts: seq<string>)
    requires MongoshHost(node) == MongoshHost(primaryHost)
    requires forall host :: host in hosts ==> !HostMatches(primaryHost, host)
    ensures node !in hosts
  {
    assert node in hosts ==> !HostMatches(primaryHost, node);
  }

  function Elements<T>(s: seq<T>): set<T> { set x | x in s }

  /** The rows outside (keep) or inside (!keep) the requested set, in database order. */
  function Split(rows: seq<Id>, ids: set<Id>, keep: bool): (r: seq<Id>)
    ensures forall x :: x in r <==> x in rows && (x !in ids <==> keep)
  {
    if rows == [] then [] else
      (if rows[0] !in ids <==> keep then [rows[0]] else []) + Split(rows[1..], ids, keep)
  }

  lemma {:induction false} SplitParts(rows: seq<Id>, ids: set<Id>)
    ensures |Split(rows, ids, true)| + |Split(rows, ids, false)| == |rows|
  {
    if rows != [] { SplitParts(rows[1..], ids); }
  }

  lemma {:induction false} SplitTwice(rows: seq<Id>, a: set<Id>, b: set<Id>)
    ensures Split(Split(rows, a, true), b, true) == Split(rows, a + b, true)
  {
    if rows != [] {
      SplitTwice(rows[1..], a, b);
      var inner := Split(rows[1..], a, true);
      if rows[0] !in a {
        assert Split(rows, a, true) == [rows[0]] + inner;
        assert ([rows[0]] + inner)[1..] == inner;
      } else {
        assert Split(rows, a, true) == inner;
      }
    }
  }

  lemma {:induction false} SplitNone(rows: seq<Id>)
    ensures Split(rows, {}, true) == rows
  {
    if rows != [] { SplitNone(rows[1..]); }
  }

  lemma TakeOneMore(s: seq<Id>, k: nat)
    requires k < |s|
    ensures Elements(s[..k+1]) == Elements(s[..k]) + {s[k]}
  {
    assert s[..k+1] == s[..k] + [s[k]];
  }

  function Detaches(removal: seq<Id>, config: set<string>): seq<Event> {
    seq(|removal|, i requires 0 <= i < |removal| => Detached(removal[i], config))
  }

  function Deletes(removal: seq<Id>, config: set<string>): seq<Event> {
    seq(|removal|, i requires 0 <= i < |removal| => Deleted(removal[i], config))
  }

  /** Only requested hosts leave the replica set, and never while they are its primary. */
  predicate SafeRemovals(log: seq<Event>, hosts: set<string>) {
    forall k :: 0 <= k < |log| ==>
      log[k].MemberRemoved? && log[k].host in hosts && log[k].host != log[k].primaryThen
  }

  /** The whole observable run of one request: member removals first, then the first `done` of the
      detaches and deletions, all of them in the final replica-set configuration. That one is without the
      requested hosts, unless the removal was `misread`. */
  predicate RunShape(run: seq<Event>, removals: seq<Event>, removal: seq<Id>, hosts: set<string>,
                     config: set<string>, done: nat, misread: bool)
  {
    && SafeRemovals(removals, hosts)
    && done <= 2 * |removal|
    && run == removals + (Detaches(removal, config) + Deletes(removal, config))[..done]
    && (done > 0 ==> misread || config !! hosts)
  }

  lemma RunSoFar(log0: seq<Event>, log1: seq<Event>, tail: seq<Event>)
    requires log0 <= log1
    ensures (log1 + tail)[|log0|..] == log1[|log0|..] + tail
  {
  }

  lemma RunOfDetaches(removal: seq<Id>, config: set<string>, k: nat)
    requires k <= |removal|
    ensures (Detaches(removal, config) + Deletes(removal, config))[..k] == Detaches(removal, config)[..k]
  {
  }

  lemma RunOfDeletes(removal: seq<Id>, config: set<string>, k: nat)
    requires k <= |removal|
    ensures (Detaches(removal, config) + Deletes(removal, config))[..|removal| + k]
            == Detaches(removal, config) + Deletes(removal, config)[..k]
  {
  }

  /** Read event by event: nothing is detached or deleted before every requested host has left the
      replica set (a misread answer apart), and nothing is deleted before every requested instance is detached. */
  lemma RunIsSafe(run: seq<Event>, removals: seq<Event>, removal: seq<Id>, hosts: set<string>,
                  config: set<string>, done: nat, misread: bool, k: nat)
    requires RunShape(run, removals, removal, hosts, config, done, misread) && k < |run|
    ensures match run[k]
            case MemberRemoved(host, primaryThen) => host in hosts && host != primaryThen
            case Detached(id, configThen) => id in removal && (misread || configThen !! hosts)
            case Deleted(id, configThen) =>
              && id in removal && (misread || configThen !! hosts)
              && forall d :: d in removal ==> Detached(d, configThen) in run[..k]
  {
    var detaches, deletes := Detaches(removal, config), Deletes(removal, config);
    if k >= |removals| {
      assert run[k] == (detaches + deletes)[k - |removals|];
      if run[k].Deleted? {
        forall d | d in removal ensures Detached(d, config) in run[..k] {
          var j :| 0 <= j < |removal| && removal[j] == d;
          assert run[..k][|removals| + j] == detaches[j];
        }
      }
    }
  }

  /** The requested instances are there and enough others are. */
  predicate MayLeave(rows: seq<Id>, ids: set<Id>) {
    ids <= Elements(rows) && |rows| - |ids| >= MIN_REPLICA_SET_MEMBERS
  }

  predicate Distinct(rows: seq<Id>) { forall i, j :: 0 <= i < j < |rows| ==> rows[i] != rows[j] }

  lemma {:induction false} SplitDistinct(rows: seq<Id>, ids: set<Id>, keep: bool)
    requires Distinct(rows)
    ensures Distinct(Split(rows, ids, keep))
  {
    if rows != [] {
      SplitDistinct(rows[1..], ids, keep);
      assert rows[0] !in rows[1..];
    }
  }

  /** What the rows look like after the first `done` requested rows were taken out. */
  lemma PartlyDetached(rows: seq<Id>, ids: set<Id>, done: nat)
    requires Distinct(rows) && ids <= Elements(rows) && done <= |Split(rows, ids, false)|
    ensures var removal := Split(rows, ids, false);
            var left := Split(rows, Elements(removal[..done]), true);
            && Distinct(left)
            && (forall i :: i in left ==> i in rows)
            && (forall i :: i in rows && i !in ids ==> i in left)
            && (done == 0 ==> left == rows)
            && (done > 0 ==> !(ids <= Elements(left)))
            && (done == |removal| ==> left == Split(rows, ids, true))
            && Elements(removal) == ids
  {
    var removal := Split(rows, ids, false);
    SplitDistinct(rows, Elements(removal[..done]), true);
    if done == 0 {
      assert Elements(removal[..0]) == {};
      SplitNone(rows);
    } else {
      assert removal[0] in removal[..done];
      assert removal[0] in ids && removal[0] !in Split(rows, Elements(removal[..done]), true);
    }
    assert removal[..|removal|] == removal;
    assert Elements(removal) == ids;
  }

  class Cluster {
    var rows: seq<Id>                       // attached instances, in database order
    const address: map<Id, string>          // visible address and port; absent when Neutron shows none
    const novaUp: bool                      // whether the database and Nova do what they are asked
    var status: Task
    var deleted: set<Id>
    var config: set<string>                 // hosts in the replica-set configuration
    var primary: string                     // elected primary, "" when there is none
    var log: seq<Event>
    var misread: bool                       // the last guest call took an unreadable step-down for a removal

    ghost predicate Valid()
      reads this
    {
      && Distinct(rows)
      && (forall a, b :: a in address && b in address && address[a] == address[b] ==> a == b)
    }

    /** Elections happen at any time; nobody else changes the membership while a task is set. */
    method Drift()
      modifies this`primary
    {
      primary := *;
    }

    /** The guest call. `hello` may be stale or wrong in every field. A failing mongosh script
        surfaces as an exception. Output that is no JSON dictionary counts as a removal, which is true of
        the removing script and false of the one that steps down. */
    method RemoveReplicaMembers(hosts: seq<string>, call: Call) returns (r: Reply)
      modifies this`config, this`primary, this`log, this`misread
      ensures old(log) <= log && SafeRemovals(log[|old(log)|..], Elements(hosts))
      ensures config <= old(config) && old(config) - config <= Elements(hosts)
      ensures misread <==> Misreads(call, hosts)
      ensures r.Removed? ==> config == old(config) - if misread then {} else Elements(hosts)
      ensures r.SteppedDown? ==> config == old(config)
      ensures r.SteppedDown? <==> Reaches(call) && StepsDown(call.hello, hosts) && call.readable
      ensures r.Removed? <==> Misreads(call, hosts) || Completes(call, old(config), hosts)
      // A reported removal is true exactly when it was not misread, or had nothing left to do.
      ensures r.Removed? ==> (config !! Elements(hosts) <==> !misread || old(config) !! Elements(hosts))
    {
      misread := false;
      if call.fails { return Raised; }
      var primaryHost := call.hello.primary;
      if call.hello.writable {
        primaryHost := if call.hello.me != "" then call.hello.me else primaryHost;
      }
      if primaryHost == "" { return Raised; }
      var primaryIsRemoved := exists host | host in hosts :: HostMatches(primaryHost, host);
      Drift();
      if MongoshHost(call.node) != MongoshHost(primaryHost) { return Raised; }
      if primaryIsRemoved {
        if call.node == primary { Drift(); }
        misread := !call.readable;
        return if call.readable then SteppedDown else Removed;
      }
      NodeStays(call.node, primaryHost, hosts);
      r := RemoveEach(call, hosts);
    }

    /** The script's loop, run on the node that answered: rs.remove works on the current primary only, and
        a host that is no member is skipped. */
    method RemoveEach(call: Call, hosts: seq<string>) returns (r: Reply)
      requires call.node !in hosts
      modifies this`config, this`primary, this`log
      ensures old(log) <= log && SafeRemovals(log[|old(log)|..], Elements(hosts))
      ensures config <= old(config) && old(config) - config <= Elements(hosts)
      ensures r == if Removable(call, old(config), hosts) then Removed else Raised
      ensures r.Removed? ==> config == old(config) - Elements(hosts)
      ensures r.Raised? ==> exists k :: 0 <= k < |hosts| && config == old(config) - Elements(hosts[..k])
    {
      for k := 0 to |hosts|
        invariant old(log) <= log && SafeRemovals(log[|old(log)|..], Elements(hosts))
        invariant config == old(config) - Elements(hosts[..k])
        invariant forall j :: 0 <= j < k && hosts[j] in old(config) && hosts[j] !in hosts[..j] ==>
                    call.primaryAt(j) == call.node && !call.refuses(j)
      {
        var host := hosts[k];
        assert hosts[..k+1] == hosts[..k] + [host];
        primary := call.primaryAt(k);
        if host in config {
          if call.node != primary || call.refuses(k) { return Raised; }
          config := config - {host};
          log := log + [MemberRemoved(host, primary)];
        }
      }
      assert hosts[..|hosts|] == hosts;
      return Removed;
    }

    /** `rounds` is the number of times the clock still reads before the deadline, and calls(i, k) is what the
        call to candidate k in round i meets. `removals` and `done` describe the run for the caller's
        reasoning only. */
    method Shrink(ids: set<Id>, rounds: nat, calls: (nat, nat) -> Call)
      returns (r: Result, ghost removals: seq<Event>, ghost done: nat)
      requires Valid()
      modifies this
      ensures Valid() && old(log) <= log
      // Refusals, exactly when, and without any effect.
      ensures r.Busy? <==> old(status) != NoTask
      ensures r.NotFound? <==> old(status) == NoTask && !(ids <= Elements(old(rows)))
      ensures r.TooFewLeft? <==> (old(status) == NoTask && ids <= Elements(old(rows))
                                  && |old(rows)| - |ids| < MIN_REPLICA_SET_MEMBERS)
      ensures r.Busy? || r.NotFound? || r.TooFewLeft? ==> unchanged(this)
      ensures !r.Busy? ==> status == NoTask
      // The run.
      ensures RunShape(log[|old(log)|..], removals, Split(old(rows), ids, false), Hosts(ids), config, done, misread)
      ensures config <= old(config) && old(config) - config <= Hosts(ids)
      ensures r.Unreachable? || r.NoPrimary? ==> done == 0
      ensures done == 0 ==> rows == old(rows) && deleted == old(deleted)
      ensures done > 0 ==> (misread || config == old(config) - Hosts(ids)) && (r.Done? || r.NovaFailed?)
      ensures r.Done? ==> done == 2 * |Split(old(rows), ids, false)|
      ensures r.Done? ==> rows == Split(old(rows), ids, true) && deleted == old(deleted) + ids
      // Every survivor keeps its row and its place in the replica set.
      ensures forall i :: i in old(rows) && i !in ids ==>
                i in rows && (i in address && address[i] in old(config) ==> address[i] in config)
      // Once one instance is detached, the same request can never be finished: it is refused.
      ensures r.NovaFailed? && done > 0 ==> !(ids <= Elements(rows))
      ensures r.Unreachable? <==> old(status) == NoTask && MayLeave(old(rows), ids) && !(ids <= address.Keys)
      // A call within the time that can remove what is left finishes the shrink.
      ensures (old(status) == NoTask && MayLeave(old(rows), ids) && ids <= address.Keys && novaUp
               && SomeCompletes(calls, rounds, |old(rows)|, old(config), AddressesOf(Split(old(rows), ids, false))))
              ==> r.Done?
      ensures r.Done? && misread ==>
                SomeMisread(calls, rounds, |old(rows)|, AddressesOf(Split(old(rows), ids, false)))
      // A first call that is misread ends in the detachment of members that were never removed.
      ensures (!r.Busy? && !r.NotFound? && !r.TooFewLeft? && !r.Unreachable? && rounds > 0 && novaUp
               && FirstMisread(calls, Split(old(rows), ids, false))) ==> r.Done? && config == old(config)
    {
      removals, done := [], 0;
      if status != NoTask { return Busy, removals, done; }
      if !(ids <= Elements(rows)) { return NotFound, removals, done; }
      if |rows| - |ids| < MIN_REPLICA_SET_MEMBERS { return TooFewLeft, removals, done; }
      status := Shrinking;
      r, removals, done := ShrinkBody(ids, rounds, calls);
      status := NoTask;
    }

    /** The part of shrink inside try/finally, followed by the detach and delete loops. */
    method ShrinkBody(ids: set<Id>, rounds: nat, calls: (nat, nat) -> Call)
      returns (r: Result, ghost removals: seq<Event>, ghost done: nat)
      requires Valid() && MayLeave(rows, ids)
      modifies this`rows, this`deleted, this`config, this`primary, this`log, this`misread
      ensures Valid() && old(log) <= log
      ensures r.Unreachable? || r.NoPrimary? || r.NovaFailed? || r.Done?
      ensures RunShape(log[|old(log)|..], removals, Split(old(rows), ids, false), Hosts(ids), config, done, misread)
      ensures config <= old(config) && old(config) - config <= Hosts(ids)
      ensures r.Unreachable? || r.NoPrimary? ==> done == 0
      ensures done == 0 ==> rows == old(rows) && deleted == old(deleted)
      ensures done > 0 ==> (misread || config == old(config) - Hosts(ids)) && (r.Done? || r.NovaFailed?)
      ensures r.Done? ==> done == 2 * |Split(old(rows), ids, false)|
      ensures r.Done? ==> rows == Split(old(rows), ids, true) && deleted == old(deleted) + ids
      ensures forall i :: i in old(rows) && i !in ids ==>
                i in rows && (i in address && address[i] in old(config) ==> address[i] in config)
      ensures r.NovaFailed? && done > 0 ==> !(ids <= Elements(rows))
      ensures (!r.Unreachable? && rounds > 0 && novaUp && FirstMisread(calls, Split(old(rows), ids, false)))
              ==> r.Done? && config == old(config)
      ensures r.Unreachable? <==> !(ids <= address.Keys)
      ensures (ids <= address.Keys && novaUp
               && SomeCompletes(calls, rounds, |old(rows)|, old(config), AddressesOf(Split(old(rows), ids, false))))
              ==> r.Done?
      ensures r.Done? && misread ==>
                SomeMisread(calls, rounds, |old(rows)|, AddressesOf(Split(old(rows), ids, false)))
    {
      var remaining, removal := Split(rows, ids, true), Split(rows, ids, false);
      ghost var log0, config0 := log, config;
      done := 0;
      SplitParts(rows, ids);
      r := RemoveFromReplicaSet(remaining, removal, ids, rounds, calls);
      removals := log[|log0|..];
      Survive(rows, ids);
      if r.Done? {
        ghost var log1 := log;
        r, done := DetachAndDelete(removal, ids);
        RunSoFar(log0, log1, (Detaches(removal, config) + Deletes(removal, config))[..done]);
      } else {
        assert removals == removals + (Detaches(removal, config) + Deletes(removal, config))[..0];
      }
    }

    /** Collects the addresses to remove and retries every member until one reports the removal done. */
    method RemoveFromReplicaSet(remaining: seq<Id>, removal: seq<Id>, ghost ids: set<Id>, rounds: nat,
                                calls: (nat, nat) -> Call)
      returns (r: Result)
      requires Elements(removal) == ids && |remaining| + |removal| > 0
      modifies this`config, this`primary, this`log, this`misread
      ensures r.Unreachable? || r.NoPrimary? || r.Done?
      ensures Progress(old(log), old(config), ids)
      ensures r.Done? ==> misread || config == old(config) - Hosts(ids)
      ensures !r.Unreachable? && rounds > 0 && FirstMisread(calls, removal) ==> r.Done? && config == old(config)
      ensures r.Unreachable? <==> !(ids <= address.Keys)
      ensures (ids <= address.Keys
               && SomeCompletes(calls, rounds, |remaining| + |removal|, old(config), AddressesOf(removal))) ==> r.Done?
      ensures r.Done? && misread ==> SomeMisread(calls, rounds, |remaining| + |removal|, AddressesOf(removal))
    {
      var addresses: seq<string> := [];
      for k := 0 to |removal|
        invariant |addresses| == k && log == old(log) && config == old(config)
        invariant forall j :: 0 <= j < k ==> removal[j] in address && addresses[j] == address[removal[j]]
      {
        if removal[k] !in address {
          assert removal[k] in Elements(removal);
          return Unreachable;
        }
        addresses := addresses + [address[removal[k]]];
      }
      AddressesAreHosts(ids, removal, addresses);
      assert addresses == AddressesOf(removal);
      var removed, round := false, 0;
      while !removed && round < rounds
        invariant Progress(old(log), old(config), ids)
        invariant removed ==> misread || config == old(config) - Hosts(ids)
        invariant Misreads(calls(0, 0), addresses) ==> config == old(config) && (round > 0 ==> removed)
        invariant round <= rounds
        invariant !removed ==> !SomeCompletes(calls, round, |remaining| + |removal|, old(config), addresses)
        invariant removed && misread ==> SomeMisread(calls, round, |remaining| + |removal|, addresses)
        decreases rounds - round
      {
        ghost var before := config;
        removed := TryCandidates(remaining + removal, addresses, ids, old(log), old(config), round, calls);
        if !removed { NoneCompletes(calls, round, |remaining| + |removal|, old(config), before, addresses); }
        round := round + 1;
      }
      r := if removed then Done else NoPrimary;
    }

    /** The two closing loops; either may be stopped by an exception. */
    method DetachAndDelete(removal: seq<Id>, ghost ids: set<Id>) returns (r: Result, ghost done: nat)
      requires Distinct(rows) && ids <= Elements(rows) && removal == Split(rows, ids, false)
      modifies this`rows, this`deleted, this`log
      ensures done <= 2 * |removal| && (r.Done? || r.NovaFailed?) && (novaUp ==> r.Done?)
      ensures log == old(log) + (Detaches(removal, config) + Deletes(removal, config))[..done]
      ensures Distinct(rows) && (forall i :: i in old(rows) && i !in ids ==> i in rows)
      ensures forall i :: i in rows ==> i in old(rows)
      ensures done == 0 ==> rows == old(rows) && deleted == old(deleted)
      ensures r.Done? ==> done == 2 * |removal| && rows == Split(old(rows), ids, true)
                          && deleted == old(deleted) + ids
      ensures r.NovaFailed? && done > 0 ==> !(ids <= Elements(rows))
    {
      var ok: bool;
      ok, done := DetachRequested(removal, ids);
      RunOfDetaches(removal, config, done);
      if !ok { return NovaFailed, done; }
      ok, done := DeleteDetached(removal, old(log));
      assert removal[..|removal|] == removal;
      r := if ok then Done else NovaFailed;
    }

    /** The second loop, after the first one has detached everything. */
    method DeleteDetached(removal: seq<Id>, ghost start: seq<Event>) returns (ok: bool, ghost done: nat)
      requires log == start + Detaches(removal, config)[..|removal|]
      modifies this`deleted, this`log
      ensures |removal| <= done <= 2 * |removal| && (ok ==> done == 2 * |removal|) && (novaUp ==> ok)
      ensures log == start + (Detaches(removal, config) + Deletes(removal, config))[..done]
      ensures deleted == old(deleted) + Elements(removal[..done - |removal|])
    {
      ghost var detaches, deletes, deletions := Detaches(removal, config), Deletes(removal, config), 0;
      assert detaches[..|removal|] == detaches;
      ok, deletions := DeleteAll(removal);
      RunOfDeletes(removal, config, deletions);
      assert log == start + (detaches + deletes[..deletions]);
      done := |removal| + deletions;
    }

    /** The first loop, and which rows it leaves. */
    method DetachRequested(removal: seq<Id>, ghost ids: set<Id>) returns (ok: bool, ghost done: nat)
      requires Distinct(rows) && ids <= Elements(rows) && removal == Split(rows, ids, false)
      modifies this`rows, this`log
      ensures done <= |removal| && (novaUp ==> ok)
      ensures ok ==> done == |removal| && rows == Split(old(rows), ids, true)
      ensures log == old(log) + Detaches(removal, config)[..done]
      ensures Distinct(rows) && (forall i :: i in old(rows) && i !in ids ==> i in rows)
      ensures forall i :: i in rows ==> i in old(rows)
      ensures Elements(removal) == ids && (done == 0 ==> rows == old(rows)) && (done > 0 ==> !(ids <= Elements(rows)))
    {
      ok, done := DetachAll(removal);
      PartlyDetached(old(rows), ids, done);
    }

    /** Takes the rows out of the cluster one by one; a database error may stop it anywhere. */
    method DetachAll(removal: seq<Id>) returns (ok: bool, ghost done: nat)
      modifies this`rows, this`log
      ensures done <= |removal| && (ok ==> done == |removal|) && (novaUp ==> ok)
      ensures log == old(log) + Detaches(removal, config)[..done]
      ensures rows == Split(old(rows), Elements(removal[..done]), true)
    {
      done := 0;
      ghost var steps := Detaches(removal, config);
      SplitNone(rows);
      assert Elements(removal[..0]) == {};
      for k := 0 to |removal|
        invariant done == k && log == old(log) + steps[..k]
        invariant rows == Split(old(rows), Elements(removal[..k]), true)
      {
        var fails: bool := *;
        if fails && !novaUp { return false, done; }
        SplitTwice(old(rows), Elements(removal[..k]), {removal[k]});
        TakeOneMore(removal, k);
        assert steps[..k+1] == steps[..k] + [Detached(removal[k], config)];
        rows := Split(rows, {removal[k]}, true);
        log := log + [Detached(removal[k], config)];
        done := done + 1;
      }
      ok := true;
    }

    /** Asks Nova to delete the detached instances one by one; Nova may refuse anywhere. */
    method DeleteAll(removal: seq<Id>) returns (ok: bool, ghost done: nat)
      modifies this`deleted, this`log
      ensures done <= |removal| && (ok ==> done == |removal|) && (novaUp ==> ok)
      ensures log == old(log) + Deletes(removal, config)[..done]
      ensures deleted == old(deleted) + Elements(removal[..done])
    {
      done := 0;
      ghost var steps := Deletes(removal, config);
      for k := 0 to |removal|
        invariant done == k && log == old(log) + steps[..k]
        invariant deleted == old(deleted) + Elements(removal[..k])
      {
        var fails: bool := *;
        if fails && !novaUp { return false, done; }
        TakeOneMore(removal, k);
        assert steps[..k+1] == steps[..k] + [Deleted(removal[k], config)];
        deleted := deleted + {removal[k]};
        log := log + [Deleted(removal[k], config)];
        done := done + 1;
      }
      ok := true;
    }

    ghost predicate Progress(log0: seq<Event>, config0: set<string>, ids: set<Id>)
      reads this`log, this`config
    {
      && log0 <= log && SafeRemovals(log[|log0|..], Hosts(ids))
      && config <= config0 && config0 - config <= Hosts(ids)
    }

    /** One pass over the candidates: stop at the first that reports the removal done. */
    method TryCandidates(candidates: seq<Id>, addresses: seq<string>, ghost ids: set<Id>,
                         ghost log0: seq<Event>, ghost config0: set<string>, round: nat, calls: (nat, nat) -> Call)
      returns (removed: bool)
      requires Elements(addresses) == Hosts(ids) && Progress(log0, config0, ids)
      modifies this`config, this`primary, this`log, this`misread
      ensures Progress(log0, config0, ids)
      ensures removed ==> misread || config == config0 - Hosts(ids)
      ensures candidates != [] && Misreads(calls(round, 0), addresses) ==> removed && config == old(config)
      ensures !removed ==> forall k :: 0 <= k < |candidates| ==> !Completes(calls(round, k), old(config), addresses)
      ensures removed && misread ==> exists k :: 0 <= k < |candidates| && Misreads(calls(round, k), addresses)
    {
      for k := 0 to |candidates|
        invariant Progress(log0, config0, ids)
        invariant Misreads(calls(round, 0), addresses) ==> k == 0 && config == old(config)
        invariant config <= old(config)
        invariant forall j :: 0 <= j < k ==> !Completes(calls(round, j), old(config), addresses)
      {
        removed := TryOne(addresses, calls(round, k), ids, log0, config0, old(config));
        if removed { return; }
      }
      return false;
    }

    /** The call to one candidate. */
    method TryOne(addresses: seq<string>, call: Call, ghost ids: set<Id>, ghost log0: seq<Event>,
                  ghost config0: set<string>, ghost before: set<string>)
      returns (removed: bool)
      requires Elements(addresses) == Hosts(ids) && Progress(log0, config0, ids) && config <= before
      modifies this`config, this`primary, this`log, this`misread
      ensures Progress(log0, config0, ids) && config <= before
      ensures removed ==> misread || config == config0 - Hosts(ids)
      ensures misread <==> Misreads(call, addresses)
      ensures misread ==> removed && config == old(config)
      ensures !removed ==> !Completes(call, before, addresses)
    {
      ghost var log1 := log;
      if Completes(call, before, addresses) { CompletesLater(call, before, config, addresses); }
      var reply := RemoveReplicaMembers(addresses, call);
      assert log[|log0|..] == log1[|log0|..] + log[|log1|..];
      removed := reply.Removed?;
    }

    /** The addresses to remove, in database order, as far as Neutron shows them. */
    function AddressesOf(removal: seq<Id>): seq<string> {
      seq(|removal|, i requires 0 <= i < |removal| => if removal[i] in address then address[removal[i]] else "")
    }

    predicate FirstMisread(calls: (nat, nat) -> Call, removal: seq<Id>) {
      Misreads(calls(0, 0), AddressesOf(removal))
    }

    lemma Survive(rows0: seq<Id>, ids: set<Id>)
      requires forall a, b :: a in address && b in address && address[a] == address[b] ==> a == b
      ensures forall i :: i in rows0 && i !in ids && i in address ==> address[i] !in Hosts(ids)
    {
    }

    lemma AddressesAreHosts(ids: set<Id>, removal: seq<Id>, addresses: seq<string>)
      requires Elements(removal) == ids && |addresses| == |removal|
      requires forall j :: 0 <= j < |removal| ==> removal[j] in address && addresses[j] == address[removal[j]]
      ensures Elements(addresses) == Hosts(ids)
    {
      forall h | h in Hosts(ids) ensures h in addresses {
        var i :| i in ids && i in address && address[i] == h;
        var j :| 0 <= j < |removal| && removal[j] == i;
        assert addresses[j] == h;
      }
    }

    ghost function Hosts(ids: set<Id>): set<string>
    {
      set i | i in ids && i in address :: address[i]
    }
  }

  // ---------- As a step of the cluster ----------

  function IdsOf(rows: seq<Topology.Row>): seq<Id> {
    if rows == [] then [] else [rows[0].id] + IdsOf(rows[1..])
  }

  lemma {:induction false} RowsLeft(rows: seq<Topology.Row>, ids: set<Id>)
    ensures IdsOf(Topology.Without(rows, ids)) == Split(IdsOf(rows), ids, true)
  {
    if rows != [] {
      RowsLeft(rows[1..], ids);
      var all, rest := IdsOf(rows), Topology.Without(rows[1..], ids);
      assert all[1..] == IdsOf(rows[1..]);
      if rows[0].id in ids {
        assert Topology.Without(rows, ids) == rest;
        assert Split(all, ids, true) == Split(all[1..], ids, true);
      } else {
        assert Topology.Without(rows, ids) == [rows[0]] + rest && ([rows[0]] + rest)[1..] == rest;
        assert Split(all, ids, true) == [rows[0].id] + Split(all[1..], ids, true);
      }
    }
  }

  lemma {:induction false} IdsAt(rows: seq<Topology.Row>)
    ensures |IdsOf(rows)| == |rows| && forall i :: 0 <= i < |rows| ==> IdsOf(rows)[i] == rows[i].id
  {
    if rows != [] { IdsAt(rows[1..]); }
  }

  lemma SameIds(rows: seq<Topology.Row>)
    ensures Elements(IdsOf(rows)) == Topology.Ids(rows)
  {
    IdsAt(rows);
    forall x | x in IdsOf(rows) ensures x in Topology.Ids(rows) {
      var i :| 0 <= i < |rows| && IdsOf(rows)[i] == x;
      assert rows[i] in rows;
    }
    forall x | x in Topology.Ids(rows) ensures x in IdsOf(rows) {
      var r :| r in rows && r.id == x;
      var i :| 0 <= i < |rows| && rows[i] == r;
      assert IdsOf(rows)[i] == x;
    }
  }

  /** A request that Shrink does not refuse is an allowed step, and the rows it ends with when done are
      those of the step. */
  lemma DoneIsStep(rows: seq<Topology.Row>, ids: set<Id>)
    requires !Topology.IsSharded(rows)
    ensures Topology.Allowed(rows, Topology.ShrinkReplica(ids))
            <==> ids <= Elements(IdsOf(rows)) && |IdsOf(rows)| - |ids| >= MIN_REPLICA_SET_MEMBERS
    ensures IdsOf(Topology.After(rows, Topology.ShrinkReplica(ids))) == Split(IdsOf(rows), ids, true)
  {
    RowsLeft(rows, ids);
    IdsAt(rows);
    SameIds(rows);
  }
}
