// CPU use of one container from the runtime's counters, with the last sample of each container cached
// (patch-zun-cri-capsule-stats.py, the embedded stats method). Figures are exact reals.

module CpuSamples {
  import opened Options

  const MAX_SAMPLES := 10000

  /** Accumulated CPU time and the time it was read, both in nanoseconds. */
  datatype Sample = Sample(cpu: int, time: int)

  type Cache = map<string, Sample>

  /** The counters a runtime reports for a container; either may be absent. */
  datatype Counters = Counters(nanoCores: Option<int>, cpuTime: Option<int>, time: int)

  function Request(cpu: real): real { if cpu <= 0.0 then 1.0 else cpu }

  /** Utilisation in percent of the request, clamped. */
  function Percent(cores: real, cpu: real): (p: real)
    ensures 0.0 <= p <= 100.0
  {
    var p := cores * 100.0 / Request(cpu);
    if p < 0.0 then 0.0 else if p > 100.0 then 100.0 else p
  }

  function Store(cache: Cache, uuid: string, s: Sample): (c: Cache)
    ensures uuid in c && c[uuid] == s
  {
    var grown := cache[uuid := s];
    if |grown| > MAX_SAMPLES then map[uuid := s] else grown
  }

  function Lookup(cache: Cache, uuid: string): Option<Sample> { if uuid in cache then Some(cache[uuid]) else None }

  /** Cores used since the previous sample: none known for a first one, and no answer when time or the
      counter has gone backwards. */
  function Cores(previous: Option<Sample>, s: Sample): (u: Option<real>)
    ensures u.Some? ==> u.value >= 0.0
  {
    match previous
    case None => Some(0.0)
    case Some(p) =>
      if s.time - p.time > 0 && s.cpu - p.cpu >= 0
      then Some((s.cpu - p.cpu) as real / (s.time - p.time) as real)
      else None
  }

  /** Whether the counter path is taken: no positive instantaneous figure, and a usable counter sample. */
  predicate UsesCounter(c: Counters) {
    !(c.nanoCores.Some? && c.nanoCores.value > 0) && c.cpuTime.Some? && c.time > 0
  }

  class Driver {
    var cache: Cache

    constructor ()
      ensures cache == map[]
    {
      cache := map[];
    }

    /** stats for a container with the given id, counters and CPU request. */
    method Stats(hasId: bool, uuid: string, c: Counters, cpu: real) returns (percent: Option<real>)
      modifies this
      ensures cache == if hasId && UsesCounter(c)
                       then Store(old(cache), uuid, Sample(c.cpuTime.value, c.time))
                       else old(cache)
      ensures |old(cache)| <= MAX_SAMPLES ==> |cache| <= MAX_SAMPLES
      ensures !hasId ==> percent == None
      ensures hasId && c.nanoCores.Some? && c.nanoCores.value > 0 ==>
                percent == Some(Percent(c.nanoCores.value as real / 1000000000.0, cpu))
      ensures hasId && UsesCounter(c) ==>
                var u := Cores(Lookup(old(cache), uuid), Sample(c.cpuTime.value, c.time));
                percent == if u.Some? then Some(Percent(u.value, cpu)) else None
      ensures !(c.nanoCores.Some? && c.nanoCores.value > 0) && !UsesCounter(c) ==> percent == None
      // A first sample says nothing yet, and one that runs backwards gives no answer.
      ensures hasId && UsesCounter(c) && uuid !in old(cache) ==> percent == Some(0.0)
      ensures hasId && UsesCounter(c) && uuid in old(cache) ==>
                (percent.None? <==> c.time <= old(cache)[uuid].time || c.cpuTime.value < old(cache)[uuid].cpu)
      ensures hasId && c.nanoCores.Some? && c.nanoCores.value > 0 ==> cache == old(cache)
    {
      if !hasId { return None; }
      var usage: Option<real> := None;
      if c.nanoCores.Some? && c.nanoCores.value > 0 { usage := Some(c.nanoCores.value as real / 1000000000.0); }
      if usage.None? && c.cpuTime.Some? && c.time > 0 {
        var previous := Lookup(cache, uuid);
        var sample := Sample(c.cpuTime.value, c.time);
        cache := cache[uuid := sample];
        if |cache| > MAX_SAMPLES {
          cache := map[];
          cache := cache[uuid := sample];
        }
        match previous
        case Some(p) =>
          var elapsed, consumed := sample.time - p.time, sample.cpu - p.cpu;
          if elapsed > 0 && consumed >= 0 { usage := Some(consumed as real / elapsed as real); }
        case None => usage := Some(0.0);
      }
      match usage
      case None => percent := None;
      case Some(u) =>
        var request := if cpu <= 0.0 then 1.0 else cpu;
        var p := u * 100.0 / request;
        percent := Some(if p < 0.0 then 0.0 else if p > 100.0 then 100.0 else p);
    }
  }

  // ---------- Runs of polls ----------

  /** One poll that takes the counter path. */
  datatype Poll = Poll(uuid: string, sample: Sample)

  function CacheAfter(polls: seq<Poll>, n: nat): (c: Cache)
    requires n <= |polls|
  {
    if n == 0 then map[] else Store(CacheAfter(polls, n - 1), polls[n-1].uuid, polls[n-1].sample)
  }

  /** The last sample of a container among the first n polls. */
  function Newest(polls: seq<Poll>, n: nat, uuid: string): Option<Sample>
    requires n <= |polls|
  {
    if n == 0 then None else if polls[n-1].uuid == uuid then Some(polls[n-1].sample) else Newest(polls, n - 1, uuid)
  }

  /** On every run the cache stays within its bound, what it holds for a container is that container's
      newest sample, and the container just polled is in it. */
  lemma {:induction false} CacheHoldsNewest(polls: seq<Poll>, n: nat, uuid: string)
    requires n <= |polls|
    ensures var c := CacheAfter(polls, n);
            && |c| <= MAX_SAMPLES
            && (uuid in c ==> Newest(polls, n, uuid) == Some(c[uuid]))
            && (n > 0 && polls[n-1].uuid == uuid ==> uuid in c)
  {
    if n > 0 { CacheHoldsNewest(polls, n - 1, uuid); }
  }

  function Ids(polls: seq<Poll>, n: nat): set<string>
    requires n <= |polls|
  {
    if n == 0 then {} else Ids(polls, n - 1) + {polls[n-1].uuid}
  }

  lemma {:induction false} IdsGrow(polls: seq<Poll>, m: nat, n: nat)
    requires m <= n <= |polls|
    ensures Ids(polls, m) <= Ids(polls, n) && |Ids(polls, m)| <= |Ids(polls, n)|
  {
    if m < n {
      IdsGrow(polls, m, n - 1);
      var before, x := Ids(polls, n - 1), polls[n-1].uuid;
      if x !in before { assert |before + {x}| == |before| + 1; } else { assert before + {x} == before; }
    }
  }

  /** With no more containers than the bound, nothing is evicted. */
  lemma {:induction false} NothingEvicted(polls: seq<Poll>, n: nat)
    requires n <= |polls| && |Ids(polls, n)| <= MAX_SAMPLES
    ensures CacheAfter(polls, n).Keys == Ids(polls, n)
  {
    if n > 0 {
      IdsGrow(polls, n - 1, n);
      NothingEvicted(polls, n - 1);
      var grown := CacheAfter(polls, n - 1)[polls[n-1].uuid := polls[n-1].sample];
      assert grown.Keys == Ids(polls, n);
      assert |grown| == |grown.Keys|;
    }
  }

  /** CPU time a poll accounts for: its usage over the time since the previous sample. */
  function Charge(cache: Cache, poll: Poll): real {
    match Lookup(cache, poll.uuid)
    case None => 0.0
    case Some(p) =>
      var u := Cores(Some(p), poll.sample);
      if u.Some? then u.value * (poll.sample.time - p.time) as real else 0.0
  }

  /** What the first n polls account for one container. */
  function Charged(polls: seq<Poll>, n: nat, uuid: string): real
    requires n <= |polls|
  {
    if n == 0 then 0.0
    else
      Charged(polls, n - 1, uuid)
      + (if polls[n-1].uuid == uuid then Charge(CacheAfter(polls, n - 1), polls[n-1]) else 0.0)
  }

  function Oldest(polls: seq<Poll>, n: nat, uuid: string): Option<Sample>
    requires n <= |polls|
  {
    if n == 0 then None
    else
      var o := Oldest(polls, n - 1, uuid);
      if o.None? && polls[n-1].uuid == uuid then Some(polls[n-1].sample) else o
  }

  /** Each sample of the container is later than the one before, and its counter is not lower. */
  predicate Advancing(polls: seq<Poll>, n: nat, uuid: string)
    requires n <= |polls|
  {
    forall k :: 0 <= k < n && polls[k].uuid == uuid && Newest(polls, k, uuid).Some? ==>
      var p := Newest(polls, k, uuid).value;
      p.time < polls[k].sample.time && p.cpu <= polls[k].sample.cpu
  }

  lemma ChargeIs(cache: Cache, poll: Poll)
    requires poll.uuid in cache && cache[poll.uuid].time < poll.sample.time && cache[poll.uuid].cpu <= poll.sample.cpu
    ensures Charge(cache, poll) == (poll.sample.cpu - cache[poll.uuid].cpu) as real
  {
    var consumed, elapsed := (poll.sample.cpu - cache[poll.uuid].cpu) as real,
        (poll.sample.time - cache[poll.uuid].time) as real;
    assert elapsed > 0.0;
    assert consumed / elapsed * elapsed == consumed;
  }

  lemma {:induction false} PolledIff(polls: seq<Poll>, n: nat, uuid: string)
    requires n <= |polls|
    ensures Newest(polls, n, uuid).Some? <==> uuid in Ids(polls, n)
    ensures Newest(polls, n, uuid).Some? <==> Oldest(polls, n, uuid).Some?
  {
    if n > 0 { PolledIff(polls, n - 1, uuid); }
  }

  /** Poll k accounts for what the counter advanced since the container's previous poll, or for nothing if
      that sample has been evicted. */
  lemma OneCharge(polls: seq<Poll>, k: nat)
    requires k < |polls| && Advancing(polls, k + 1, polls[k].uuid)
    ensures var previous, charge := Newest(polls, k, polls[k].uuid), Charge(CacheAfter(polls, k), polls[k]);
            && (previous.None? ==> charge == 0.0)
            && (previous.Some? ==> charge <= (polls[k].sample.cpu - previous.value.cpu) as real)
            && (previous.Some? && |Ids(polls, k)| <= MAX_SAMPLES ==>
                 charge == (polls[k].sample.cpu - previous.value.cpu) as real)
  {
    var uuid := polls[k].uuid;
    CacheHoldsNewest(polls, k, uuid);
    PolledIff(polls, k, uuid);
    if |Ids(polls, k)| <= MAX_SAMPLES { NothingEvicted(polls, k); }
    if uuid in CacheAfter(polls, k) { ChargeIs(CacheAfter(polls, k), polls[k]); }
  }

  /** However other containers are polled in between, the CPU time accounted for never exceeds what the
      counter advanced, and it is exactly that when the polled containers fit in the cache. */
  lemma {:induction false} TimeConserved(polls: seq<Poll>, n: nat, uuid: string)
    requires n <= |polls| && Advancing(polls, n, uuid)
    ensures var first, last := Oldest(polls, n, uuid), Newest(polls, n, uuid);
            && (first.Some? <==> last.Some?)
            && (first.None? ==> Charged(polls, n, uuid) == 0.0)
            && (first.Some? ==> Charged(polls, n, uuid) <= (last.value.cpu - first.value.cpu) as real)
            && (first.Some? && |Ids(polls, n)| <= MAX_SAMPLES ==>
                 Charged(polls, n, uuid) == (last.value.cpu - first.value.cpu) as real)
  {
    if n > 0 {
      TimeConserved(polls, n - 1, uuid);
      IdsGrow(polls, n - 1, n);
      if polls[n-1].uuid == uuid { OneCharge(polls, n - 1); }
    }
  }
}
