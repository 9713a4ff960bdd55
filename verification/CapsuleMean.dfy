// CPU use of a capsule: the mean of its containers' figures, weighted by their CPU requests
// (patch-zun-capsule-stats.py, the embedded stats method), and what that mean says about cores.

module CapsuleMean {
  import opened CpuSamples
  import opened Options

  /** A container of the capsule; host and id are empty when unset. */
  class Container {
    var host: string
    const running: bool
    const id: string
    const cpu: real

    constructor (host: string, running: bool, id: string, cpu: real)
      ensures this.host == host && this.running == running && this.id == id && this.cpu == cpu
    {
      this.host, this.running, this.id, this.cpu := host, running, id, cpu;
    }
  }

  /** One figure that counts towards the mean. */
  datatype Figure = Figure(percent: real, request: real)

  function Weighted(figures: seq<Figure>, n: nat): real
    requires n <= |figures|
  {
    if n == 0 then 0.0 else Weighted(figures, n - 1) + figures[n-1].percent * figures[n-1].request
  }

  function Requested(figures: seq<Figure>, n: nat): real
    requires n <= |figures|
  {
    if n == 0 then 0.0 else Requested(figures, n - 1) + figures[n-1].request
  }

  predicate Summed(weighted: real, total: real, figures: seq<Figure>) {
    weighted == Weighted(figures, |figures|) && total == Requested(figures, |figures|)
  }

  /** The mean of the figures, weighted by request. */
  predicate MeanOf(mean: real, figures: seq<Figure>) {
    figures != [] && mean * Requested(figures, |figures|) == Weighted(figures, |figures|)
  }

  function HostOr(host: string, running: bool, capsuleHost: string): string {
    if running && host == "" then capsuleHost else host
  }

  /** The figures of the first n containers that count: running, placed, with an id and an answer that
      reads as a number. */
  function Counted(containers: seq<Container>, hosts: seq<string>, answers: seq<Option<real>>, capsuleHost: string,
                   n: nat)
    : (figures: seq<Figure>)
    requires n <= |containers| == |hosts| == |answers|
    ensures forall f :: f in figures ==> f.request > 0.0
  {
    if n == 0 then []
    else
      var c := containers[n-1];
      Counted(containers, hosts, answers, capsuleHost, n - 1)
      + (if c.running && HostOr(hosts[n-1], true, capsuleHost) != "" && c.id != "" && answers[n-1].Some?
         then [Figure(answers[n-1].value, Request(c.cpu))] else [])
  }

  function HostsOf(containers: seq<Container>): seq<string>
    reads set c | c in containers
  {
    seq(|containers|, i requires 0 <= i < |containers| reads set c | c in containers => containers[i].host)
  }

  /** stats of the capsule. answers[i] is the figure container i's poll would give; a poll that raises, or
      an answer that is no number, is None. */
  method Stats(containers: seq<Container>, answers: seq<Option<real>>, capsuleHost: string) returns (mean: Option<real>)
    requires |answers| == |containers|
    modifies set c | c in containers
    ensures forall i :: 0 <= i < |containers| ==>
              containers[i].host == if containers[i].running && old(containers[i].host) == "" then capsuleHost
                                    else old(containers[i].host)
    ensures var figures := Counted(containers, old(HostsOf(containers)), answers, capsuleHost, |containers|);
            (mean.None? <==> figures == []) && (mean.Some? ==> MeanOf(mean.value, figures))
  {
    var weighted, total;
    ghost var figures;
    weighted, total, figures := SumUp(containers, answers, capsuleHost);
    mean := Divide(weighted, total, figures);
  }

  method SumUp(containers: seq<Container>, answers: seq<Option<real>>, capsuleHost: string)
    returns (weighted: real, total: real, ghost figures: seq<Figure>)
    requires |answers| == |containers|
    modifies set c | c in containers
    ensures forall i :: 0 <= i < |containers| ==>
              containers[i].host == HostOr(old(containers[i].host), containers[i].running, capsuleHost)
    ensures figures == Counted(containers, old(HostsOf(containers)), answers, capsuleHost, |containers|)
    ensures Summed(weighted, total, figures)
  {
    weighted, total, figures := 0.0, 0.0, [];
    ghost var hosts := HostsOf(containers);
    for n := 0 to |containers|
      invariant forall i :: 0 <= i < |containers| ==>
                  var host := HostOr(hosts[i], containers[i].running, capsuleHost);
                  containers[i].host == host || (n <= i && containers[i].host == hosts[i])
      invariant figures == Counted(containers, hosts, answers, capsuleHost, n)
      invariant Summed(weighted, total, figures)
    {
      weighted, total, figures := SumNext(containers[n], answers[n], capsuleHost, hosts[n], weighted, total, figures);
    }
  }

  /** One turn of the loop: the container's figure, if it counts, joins the sums. */
  method SumNext(c: Container, answer: Option<real>, capsuleHost: string, ghost host: string, weighted: real,
                 total: real, ghost figures: seq<Figure>)
    returns (w: real, t: real, ghost more: seq<Figure>)
    requires c.host == host || c.host == HostOr(host, c.running, capsuleHost)
    requires Summed(weighted, total, figures)
    modifies c
    ensures c.host == HostOr(host, c.running, capsuleHost)
    ensures more == figures + (if c.running && HostOr(host, true, capsuleHost) != "" && c.id != "" && answer.Some?
                               then [Figure(answer.value, Request(c.cpu))] else [])
    ensures Summed(w, t, more)
  {
    w, t, more := weighted, total, figures;
    var counts := Place(c, capsuleHost, host);
    if counts && answer.Some? { w, t, more := Add(weighted, total, answer.value, c.cpu, figures); }
  }

  /** One more figure; a container without a positive CPU request weighs 1. */
  method Add(weighted: real, total: real, percent: real, cpu: real, ghost figures: seq<Figure>)
    returns (w: real, t: real, ghost more: seq<Figure>)
    requires Summed(weighted, total, figures)
    ensures more == figures + [Figure(percent, Request(cpu))] && Summed(w, t, more)
  {
    var request := if cpu <= 0.0 then 1.0 else cpu;
    w, t, more := weighted + percent * request, total + request, figures + [Figure(percent, request)];
    OneMore(figures, Figure(percent, request));
  }

  method Divide(weighted: real, total: real, ghost figures: seq<Figure>) returns (mean: Option<real>)
    requires Summed(weighted, total, figures)
    requires forall f :: f in figures ==> f.request > 0.0
    ensures (mean.None? <==> figures == []) && (mean.Some? ==> MeanOf(mean.value, figures))
  {
    RequestedPositive(figures, |figures|);
    if total <= 0.0 { return None; }
    mean := Some(weighted / total);
    assert weighted / total * total == weighted;
  }

  /** Whether the container is polled at all; a running one without a host takes the capsule's. */
  method Place(c: Container, capsuleHost: string, ghost host: string) returns (counts: bool)
    requires c.host == host || c.host == HostOr(host, c.running, capsuleHost)
    modifies c
    ensures c.host == HostOr(host, c.running, capsuleHost)
    ensures counts <==> c.running && HostOr(host, true, capsuleHost) != "" && c.id != ""
  {
    if !c.running { return false; }
    if c.host == "" { c.host := capsuleHost; }
    counts := c.host != "" && c.id != "";
  }

  lemma {:induction false} Prefix(figures: seq<Figure>, f: Figure, n: nat)
    requires n <= |figures|
    ensures Weighted(figures + [f], n) == Weighted(figures, n) && Requested(figures + [f], n) == Requested(figures, n)
  {
    if n > 0 { Prefix(figures, f, n - 1); }
  }

  lemma OneMore(figures: seq<Figure>, f: Figure)
    ensures Weighted(figures + [f], |figures| + 1) == Weighted(figures, |figures|) + f.percent * f.request
    ensures Requested(figures + [f], |figures| + 1) == Requested(figures, |figures|) + f.request
  {
    Prefix(figures, f, |figures|);
  }

  lemma {:induction false} RequestedPositive(figures: seq<Figure>, n: nat)
    requires n <= |figures| && forall f :: f in figures ==> f.request > 0.0
    ensures Requested(figures, n) >= 0.0 && (n > 0 ==> Requested(figures, n) > 0.0)
  {
    if n > 0 {
      RequestedPositive(figures, n - 1);
      assert figures[n-1] in figures;
    }
  }

  /** A container counts when it runs, has a host or can take the capsule's, has an id, and its poll gave a figure;
      it weighs as many cores as it requests, or one. */
  predicate Counts(c: Container, host: string, answer: Option<real>, capsuleHost: string, f: Figure) {
    && c.running && (host != "" || capsuleHost != "") && c.id != ""
    && answer == Some(f.percent) && f.request == if c.cpu > 0.0 then c.cpu else 1.0
  }

  lemma {:induction false} CountedExact(containers: seq<Container>, hosts: seq<string>, answers: seq<Option<real>>,
                                        capsuleHost: string, n: nat, f: Figure)
    requires n <= |containers| == |hosts| == |answers|
    ensures f in Counted(containers, hosts, answers, capsuleHost, n)
            <==> exists i :: 0 <= i < n && Counts(containers[i], hosts[i], answers[i], capsuleHost, f)
  {
    if n > 0 {
      CountedExact(containers, hosts, answers, capsuleHost, n - 1, f);
      if f in Counted(containers, hosts, answers, capsuleHost, n - 1) {
        var i :| 0 <= i < n - 1 && Counts(containers[i], hosts[i], answers[i], capsuleHost, f);
      }
    }
  }

  /** Which of the first n containers count. */
  function Counting(containers: seq<Container>, hosts: seq<string>, answers: seq<Option<real>>, capsuleHost: string,
                    n: nat)
    : set<nat>
    requires n <= |containers| == |hosts| == |answers|
  {
    set i: nat | 0 <= i < n && containers[i].running && (hosts[i] != "" || capsuleHost != "")
                 && containers[i].id != "" && answers[i].Some?
  }

  /** Each of them counts once. */
  lemma {:induction false} CountedMany(containers: seq<Container>, hosts: seq<string>, answers: seq<Option<real>>,
                                       capsuleHost: string, n: nat)
    requires n <= |containers| == |hosts| == |answers|
    ensures |Counted(containers, hosts, answers, capsuleHost, n)|
            == |Counting(containers, hosts, answers, capsuleHost, n)|
  {
    var all := Counting(containers, hosts, answers, capsuleHost, n);
    if n == 0 {
      assert all == {};
    } else {
      CountedMany(containers, hosts, answers, capsuleHost, n - 1);
      var before := Counting(containers, hosts, answers, capsuleHost, n - 1);
      assert all == if n - 1 in all then before + {n - 1} else before;
    }
  }

  // ---------- What the mean says ----------

  predicate Inside(low: real, high: real, total: real, sum: real) { low * total <= sum <= high * total }

  lemma {:induction false} WeightedBounds(figures: seq<Figure>, n: nat, low: real, high: real)
    requires n <= |figures|
    requires forall f :: f in figures ==> f.request > 0.0 && low <= f.percent <= high
    ensures Inside(low, high, Requested(figures, n), Weighted(figures, n))
  {
    if n == 0 {
      assert low * 0.0 == 0.0 == high * 0.0;
    } else {
      WeightedBounds(figures, n - 1, low, high);
      assert figures[n-1] in figures;
      OneMoreInside(figures, n, low, high);
    }
  }

  lemma OneMoreInside(figures: seq<Figure>, n: nat, low: real, high: real)
    requires 0 < n <= |figures| && figures[n-1].request > 0.0 && low <= figures[n-1].percent <= high
    requires Inside(low, high, Requested(figures, n - 1), Weighted(figures, n - 1))
    ensures Inside(low, high, Requested(figures, n), Weighted(figures, n))
  {
    var f, total, sum := figures[n-1], Requested(figures, n), Weighted(figures, n);
    BoundStep(low, high, f.percent, f.request, Requested(figures, n - 1), Weighted(figures, n - 1), total, sum);
  }

  lemma BoundStep(low: real, high: real, p: real, r: real, total: real, sum: real, total': real, sum': real)
    requires Inside(low, high, total, sum) && low <= p <= high && r > 0.0
    requires total' == total + r && sum' == sum + p * r
    ensures Inside(low, high, total', sum')
  {
    Scale(low, p, r);
    Scale(p, high, r);
    assert low * (total + r) == low * total + low * r;
    assert high * (total + r) == high * total + high * r;
  }

  lemma Scale(a: real, b: real, r: real)
    requires a <= b && r > 0.0
    ensures a * r <= b * r
  {
    assert (b - a) * r >= 0.0;
  }

  lemma Unscale(a: real, b: real, r: real)
    requires a * r <= b * r && r > 0.0
    ensures a <= b
  {
    assert (a - b) * r == a * r - b * r <= 0.0;
    assert a > b ==> (a - b) * r > 0.0;
  }

  /** The capsule's figure lies between the smallest and the largest figure of its counted containers. */
  lemma MeanBounds(mean: real, figures: seq<Figure>, low: real, high: real)
    requires MeanOf(mean, figures)
    requires forall f :: f in figures ==> f.request > 0.0 && low <= f.percent <= high
    ensures low <= mean <= high
  {
    WeightedBounds(figures, |figures|, low, high);
    RequestedPositive(figures, |figures|);
    Between(mean, low, high, Requested(figures, |figures|), Weighted(figures, |figures|));
  }

  lemma Between(mean: real, low: real, high: real, total: real, sum: real)
    requires total > 0.0 && mean * total == sum && Inside(low, high, total, sum)
    ensures low <= mean <= high
  {
    Unscale(low, mean, total);
    Unscale(mean, high, total);
  }

  /** Cores used and the CPU setting of a counted container. */
  datatype Use = Use(cores: real, cpu: real)

  function Figures(uses: seq<Use>): seq<Figure> {
    seq(|uses|, i requires 0 <= i < |uses| => Figure(Percent(uses[i].cores, uses[i].cpu), Request(uses[i].cpu)))
  }

  function TotalCores(uses: seq<Use>, n: nat): real
    requires n <= |uses|
  {
    if n == 0 then 0.0 else TotalCores(uses, n - 1) + uses[n-1].cores
  }

  function TotalRequested(uses: seq<Use>, n: nat): real
    requires n <= |uses|
  {
    if n == 0 then 0.0 else TotalRequested(uses, n - 1) + Request(uses[n-1].cpu)
  }

  /** The container uses no more than it requests, so its figure is not cut off. */
  predicate Within(u: Use) { 0.0 <= u.cores <= Request(u.cpu) }

  lemma PercentTimesRequest(u: Use)
    requires u.cores >= 0.0
    ensures Percent(u.cores, u.cpu) * Request(u.cpu) <= 100.0 * u.cores
    ensures Percent(u.cores, u.cpu) * Request(u.cpu) == 100.0 * u.cores <==> Within(u)
  {
    var r, p := Request(u.cpu), u.cores * 100.0 / Request(u.cpu);
    Quot(u.cores * 100.0, r, p);
    if Within(u) {
      assert Percent(u.cores, u.cpu) == p;
    } else {
      assert Percent(u.cores, u.cpu) == 100.0;
    }
  }

  lemma Quot(x: real, r: real, p: real)
    requires r > 0.0 && x >= 0.0 && p == x / r
    ensures p * r == x && p >= 0.0 && (p > 100.0 <==> x > 100.0 * r)
  {
    assert p * r == x;
    if p < 0.0 { Scale(p, 0.0, r); }
    if p <= 100.0 { Scale(p, 100.0, r); } else { assert (p - 100.0) * r > 0.0; }
  }

  /** Cores used in percent of the cores requested. */
  function Utilisation(cores: real, requested: real): real
    requires requested > 0.0
  {
    100.0 * cores / requested
  }

  lemma Quotient(mean: real, sum: real, cores: real, requested: real)
    requires requested > 0.0 && mean * requested == sum <= 100.0 * cores
    ensures mean <= Utilisation(cores, requested) && (mean == Utilisation(cores, requested) <==> sum == 100.0 * cores)
  {
    var q := Utilisation(cores, requested);
    assert q * requested == 100.0 * cores;
    Unscale(mean, q, requested);
    if sum == 100.0 * cores { Unscale(q, mean, requested); }
  }

  lemma {:induction false} WeightedCores(uses: seq<Use>, n: nat)
    requires n <= |uses| && forall u :: u in uses ==> u.cores >= 0.0
    ensures Requested(Figures(uses), n) == TotalRequested(uses, n)
    ensures Weighted(Figures(uses), n) <= 100.0 * TotalCores(uses, n)
    ensures Weighted(Figures(uses), n) == 100.0 * TotalCores(uses, n) <==> forall i :: 0 <= i < n ==> Within(uses[i])
  {
    if n > 0 {
      WeightedCores(uses, n - 1);
      assert uses[n-1] in uses;
      LastFigure(uses, n);
    }
  }

  lemma LastFigure(uses: seq<Use>, n: nat)
    requires 0 < n <= |uses| && uses[n-1].cores >= 0.0
    ensures var gain := Weighted(Figures(uses), n) - Weighted(Figures(uses), n - 1);
            gain <= 100.0 * uses[n-1].cores && (gain == 100.0 * uses[n-1].cores <==> Within(uses[n-1]))
  {
    PercentTimesRequest(uses[n-1]);
  }

  /** The capsule's figure never exceeds 100 times all cores used over all cores requested, and it equals
      that exactly when no container's figure is cut off. */
  lemma {:induction false} CapsuleUtilisation(mean: real, uses: seq<Use>)
    requires uses != [] && MeanOf(mean, Figures(uses)) && forall u :: u in uses ==> u.cores >= 0.0
    ensures var requested, cores := TotalRequested(uses, |uses|), TotalCores(uses, |uses|);
            && requested > 0.0 && mean <= Utilisation(cores, requested)
            && (mean == Utilisation(cores, requested) <==> forall i :: 0 <= i < |uses| ==> Within(uses[i]))
  {
    var n := |uses|;
    var sum, cores, requested := Weighted(Figures(uses), n), TotalCores(uses, n), TotalRequested(uses, n);
    UsesSummed(uses, n, sum, cores, requested);
    MeanTimes(mean, uses, sum, requested);
    Quotient(mean, sum, cores, requested);
  }

  lemma UsesSummed(uses: seq<Use>, n: nat, sum: real, cores: real, requested: real)
    requires 0 < n == |uses| && forall u :: u in uses ==> u.cores >= 0.0
    requires sum == Weighted(Figures(uses), n) && cores == TotalCores(uses, n) && requested == TotalRequested(uses, n)
    ensures requested == Requested(Figures(uses), n) && requested > 0.0 && sum <= 100.0 * cores
    ensures sum == 100.0 * cores <==> forall i :: 0 <= i < |uses| ==> Within(uses[i])
  {
    WeightedCores(uses, n);
    RequestedPositive(Figures(uses), n);
  }

  lemma {:induction false} MeanTimes(mean: real, uses: seq<Use>, sum: real, requested: real)
    requires MeanOf(mean, Figures(uses))
    requires sum == Weighted(Figures(uses), |uses|) && requested == Requested(Figures(uses), |uses|)
    ensures mean * requested == sum
  {
  }

  /** Figures that containers report keep the capsule's within 0 and 100. */
  lemma CapsuleInRange(mean: real, uses: seq<Use>)
    requires MeanOf(mean, Figures(uses))
    ensures 0.0 <= mean <= 100.0
  {
    MeanBounds(mean, Figures(uses), 0.0, 100.0);
  }

  // ---------- With the driver's figures ----------

  /** Each poll answers with the driver's figure for the cores used, or with none. */
  predicate DriverAnswers(containers: seq<Container>, cores: seq<Option<real>>, answers: seq<Option<real>>) {
    && |cores| == |containers| == |answers|
    && forall i :: 0 <= i < |cores| ==>
         && (cores[i].Some? ==> cores[i].value >= 0.0)
         && answers[i] == if cores[i].Some? then Some(Percent(cores[i].value, containers[i].cpu)) else None
  }

  /** Cores and CPU settings of the counted ones among the first n containers. */
  function UsesOf(containers: seq<Container>, hosts: seq<string>, cores: seq<Option<real>>, capsuleHost: string, n: nat)
    : (uses: seq<Use>)
    requires n <= |containers| == |hosts| == |cores|
  {
    if n == 0 then []
    else
      var c := containers[n-1];
      UsesOf(containers, hosts, cores, capsuleHost, n - 1)
      + (if c.running && HostOr(hosts[n-1], true, capsuleHost) != "" && c.id != "" && cores[n-1].Some?
         then [Use(cores[n-1].value, c.cpu)] else [])
  }

  lemma {:induction false} CountedAreUses(containers: seq<Container>, hosts: seq<string>, cores: seq<Option<real>>,
                                          answers: seq<Option<real>>, capsuleHost: string, n: nat)
    requires n <= |containers| == |hosts| && DriverAnswers(containers, cores, answers)
    ensures var uses := UsesOf(containers, hosts, cores, capsuleHost, n);
            && Counted(containers, hosts, answers, capsuleHost, n) == Figures(uses)
            && forall u :: u in uses ==> u.cores >= 0.0
  {
    if n > 0 { CountedAreUses(containers, hosts, cores, answers, capsuleHost, n - 1); }
  }

  /** Across the two files: the capsule's figure, computed from the driver's figures of its containers, is at
      most the cores they used in percent of the cores they requested, and equal exactly when no container uses
      more than it requested. */
  lemma CapsuleOfDriver(mean: real, containers: seq<Container>, hosts: seq<string>, cores: seq<Option<real>>,
                        answers: seq<Option<real>>, capsuleHost: string)
    requires |hosts| == |containers| && DriverAnswers(containers, cores, answers)
    requires MeanOf(mean, Counted(containers, hosts, answers, capsuleHost, |containers|))
    ensures var uses := UsesOf(containers, hosts, cores, capsuleHost, |containers|);
            var requested, used := TotalRequested(uses, |uses|), TotalCores(uses, |uses|);
            && requested > 0.0 && mean <= Utilisation(used, requested)
            && (mean == Utilisation(used, requested) <==> forall i :: 0 <= i < |uses| ==> Within(uses[i]))
            && 0.0 <= mean <= 100.0
  {
    var uses := UsesOf(containers, hosts, cores, capsuleHost, |containers|);
    CountedAreUses(containers, hosts, cores, answers, capsuleHost, |containers|);
    CapsuleUtilisation(mean, uses);
    CapsuleInRange(mean, uses);
  }
}
