// The channel that routes CRI calls to v1 and falls back to v1alpha2 per service
// (patch-zun-cri-v1.py, the embedded _CriApiCompatibilityChannel).

module CriChannel {
  import opened Filters

  const ALPHA2_PREFIX := "/runtime.v1alpha2."
  const V1_PREFIX := "/runtime.v1."

  datatype Version = V1 | V1Alpha2

  datatype Code = Unimplemented | OtherCode(code: nat)

  datatype Ending = Closed | Failed(code: Code)

  /** What a call yields: some items, then a close or an error. A unary answer is one item, or an error
      alone. */
  datatype Reply<T> = Reply(items: seq<T>, ending: Ending)

  predicate Unary<T>(r: Reply<T>) { if r.ending.Closed? then |r.items| == 1 else r.items == [] }

  predicate RaisedAtOnce<T>(r: Reply<T>) { r.items == [] && r.ending.Failed? }

  /** The error that sends a service to v1alpha2. */
  predicate Rejected<T>(r: Reply<T>) { r.items == [] && r.ending == Failed(Unimplemented) }

  // ---------- Paths ----------

  datatype Service = NoService | Named(name: string)

  datatype Route = Route(stable: string, alpha2: string, service: Service)

  /** The text from index i up to the next slash. */
  function Segment(s: string, i: nat): string
    requires i <= |s|
    decreases |s| - i
  {
    if i == |s| || s[i] == '/' then "" else [s[i]] + Segment(s, i + 1)
  }

  /** _paths: a method outside v1alpha2 is left alone. */
  function Paths(target: string): Route {
    if !(ALPHA2_PREFIX <= target) then Route(target, target, NoService)
    else Route(V1_PREFIX + target[|ALPHA2_PREFIX|..], target, Named(Segment(target, 1)))
  }

  /** Different methods keep different v1 paths, and only v1alpha2 methods are rerouted. */
  lemma PathsInjective(a: string, b: string)
    requires ALPHA2_PREFIX <= a && ALPHA2_PREFIX <= b && Paths(a).stable == Paths(b).stable
    ensures a == b
  {
    var x, y := a[|ALPHA2_PREFIX|..], b[|ALPHA2_PREFIX|..];
    assert (V1_PREFIX + x)[|V1_PREFIX|..] == x && (V1_PREFIX + y)[|V1_PREFIX|..] == y;
    assert a == ALPHA2_PREFIX + x && b == ALPHA2_PREFIX + y;
  }

  lemma {:induction false} SegmentIs(s: string, i: nat, part: string, rest: string)
    requires i <= |s| && s[i..] == part + rest && '/' !in part && (rest == "" || rest[0] == '/')
    ensures Segment(s, i) == part
    decreases |part|
  {
    if part == "" {
      assert s[i..] == rest;
      if i < |s| { assert s[i] == s[i..][0]; }
    } else {
      assert s[i] == s[i..][0] == part[0];
      assert s[i+1..] == s[i..][1..] == part[1..] + rest;
      SegmentIs(s, i + 1, part[1..], rest);
    }
  }

  /** The calls of one service share its name, and the v1 path differs in the version alone. */
  lemma PathsOfService(service: string, rpc: string)
    requires '/' !in service && '/' !in rpc
    ensures Paths("/runtime.v1alpha2." + service + "/" + rpc)
            == Route("/runtime.v1." + service + "/" + rpc, "/runtime.v1alpha2." + service + "/" + rpc,
                     Named("runtime.v1alpha2." + service))
  {
    var m := "/runtime.v1alpha2." + service + "/" + rpc;
    assert m[|ALPHA2_PREFIX|..] == service + "/" + rpc;
    assert "/runtime.v1." + service + "/" + rpc == V1_PREFIX + (service + "/" + rpc);
    var part, rest := "runtime.v1alpha2." + service, "/" + rpc;
    assert m[1..] == part + rest;
    SegmentIs(m, 1, part, rest);
  }

  // ---------- One call ----------

  type Versions = map<string, Version>

  predicate OnAlpha2(versions: Versions, service: string) { service in versions && versions[service] == V1Alpha2 }

  /** The recorded versions once the v1 answer has been looked at; an error other than the fallback one
      records nothing. */
  function Recorded<T>(versions: Versions, service: string, v1: Reply<T>): Versions {
    if Rejected(v1) then versions[service := V1Alpha2]
    else if RaisedAtOnce(v1) then versions
    else versions[service := V1]
  }

  function After<T>(versions: Versions, service: string, v1: Reply<T>): Versions {
    if OnAlpha2(versions, service) then versions else Recorded(versions, service, v1)
  }

  /** The APIs asked, in order. */
  function Asked<T>(versions: Versions, service: string, v1: Reply<T>): seq<Version> {
    if OnAlpha2(versions, service) then [V1Alpha2] else if Rejected(v1) then [V1, V1Alpha2] else [V1]
  }

  /** What the caller gets: the answer of the API asked last. */
  function Result<T>(versions: Versions, service: string, v1: Reply<T>, alpha2: Reply<T>): Reply<T> {
    if OnAlpha2(versions, service) || Rejected(v1) then alpha2 else v1
  }

  class Channel<T> {
    var versions: Versions

    constructor ()
      ensures versions == map[]
    {
      versions := map[];
    }

    /** unary_unary's invoke; v1 and alpha2 are what the two APIs answer if asked. */
    method InvokeUnary(service: string, v1: Reply<T>, alpha2: Reply<T>) returns (r: Reply<T>, asked: seq<Version>)
      requires Unary(v1) && Unary(alpha2)
      modifies this
      ensures versions == After(old(versions), service, v1)
      ensures r == Result(old(versions), service, v1, alpha2) && asked == Asked(old(versions), service, v1)
      // Read off the answer.
      ensures OnAlpha2(old(versions), service) ==> versions == old(versions) && r == alpha2 && asked == [V1Alpha2]
      ensures !OnAlpha2(old(versions), service) && v1.items == [] && v1.ending == Failed(Unimplemented) ==>
                versions == old(versions)[service := V1Alpha2] && r == alpha2 && asked == [V1, V1Alpha2]
      ensures (!OnAlpha2(old(versions), service) && v1.items == [] && v1.ending.Failed?
               && v1.ending.code != Unimplemented) ==> versions == old(versions) && r == v1 && asked == [V1]
      ensures !OnAlpha2(old(versions), service) && (v1.items != [] || v1.ending.Closed?) ==>
                versions == old(versions)[service := V1] && r == v1 && asked == [V1]
    {
      if service in versions && versions[service] == V1Alpha2 { return alpha2, [V1Alpha2]; }
      match v1.ending
      case Failed(code) =>
        if code != Unimplemented { return v1, [V1]; }
        versions := versions[service := V1Alpha2];
        return alpha2, [V1, V1Alpha2];
      case Closed =>
        versions := versions[service := V1];
        return v1, [V1];
    }

    /** unary_stream's invoke: the first item is read ahead and emitted again. */
    method InvokeStream(service: string, v1: Reply<T>, alpha2: Reply<T>) returns (r: Reply<T>, asked: seq<Version>)
      modifies this
      ensures versions == After(old(versions), service, v1)
      ensures r == Result(old(versions), service, v1, alpha2) && asked == Asked(old(versions), service, v1)
      // Read off the answer.
      ensures OnAlpha2(old(versions), service) ==> versions == old(versions) && r == alpha2 && asked == [V1Alpha2]
      ensures !OnAlpha2(old(versions), service) && v1.items == [] && v1.ending == Failed(Unimplemented) ==>
                versions == old(versions)[service := V1Alpha2] && r == alpha2 && asked == [V1, V1Alpha2]
      ensures (!OnAlpha2(old(versions), service) && v1.items == [] && v1.ending.Failed?
               && v1.ending.code != Unimplemented) ==> versions == old(versions) && r == v1 && asked == [V1]
      ensures !OnAlpha2(old(versions), service) && (v1.items != [] || v1.ending.Closed?) ==>
                versions == old(versions)[service := V1] && r == v1 && asked == [V1]
    {
      if service in versions && versions[service] == V1Alpha2 { return alpha2, [V1Alpha2]; }
      if v1.items == [] {
        match v1.ending
        case Closed =>
          versions := versions[service := V1];
          return Reply([], Closed), [V1];
        case Failed(code) =>
          if code != Unimplemented { return v1, [V1]; }
          versions := versions[service := V1Alpha2];
          return alpha2, [V1, V1Alpha2];
      }
      versions := versions[service := V1];
      r := Emit(v1.items[0], Reply(v1.items[1..], v1.ending));
      asked := [V1];
    }

    /** The generator: first, then the rest of the answer with whatever ends it. */
    method Emit(first: T, responses: Reply<T>) returns (r: Reply<T>)
      ensures r == Reply([first] + responses.items, responses.ending)
    {
      var emitted := [first];
      for n := 0 to |responses.items|
        invariant emitted == [first] + responses.items[..n]
      {
        emitted := emitted + [responses.items[n]];
      }
      r := Reply(emitted, responses.ending);
    }
  }

  // ---------- Sequential runs ----------

  /** One call with what the two APIs would answer to it. */
  datatype Call<T> = Call(service: string, v1: Reply<T>, alpha2: Reply<T>)

  function VersionsAfter<T>(start: Versions, calls: seq<Call<T>>): Versions
    decreases |calls|
  {
    if calls == [] then start else VersionsAfter(After(start, calls[0].service, calls[0].v1), calls[1..])
  }

  /** v1 is answered UNIMPLEMENTED by exactly the services outside v1Services. */
  predicate FixedSupport<T>(calls: seq<Call<T>>, v1Services: set<string>) {
    forall k :: 0 <= k < |calls| ==> (Rejected(calls[k].v1) <==> calls[k].service !in v1Services)
  }

  /** Only versions that the server implements are recorded. */
  predicate Sound(versions: Versions, v1Services: set<string>) {
    forall s :: s in versions ==> (versions[s] == V1 <==> s in v1Services)
  }

  function Direct<T>(call: Call<T>, v1Services: set<string>): Reply<T> {
    if call.service in v1Services then call.v1 else call.alpha2
  }

  lemma {:induction false} RunsStaySound<T>(start: Versions, calls: seq<Call<T>>, v1Services: set<string>)
    requires FixedSupport(calls, v1Services) && Sound(start, v1Services)
    ensures Sound(VersionsAfter(start, calls), v1Services)
    decreases |calls|
  {
    if calls != [] {
      assert Rejected(calls[0].v1) <==> calls[0].service !in v1Services;
      RunsStaySound(After(start, calls[0].service, calls[0].v1), calls[1..], v1Services);
    }
  }

  /** Each call of a run returns what the supported API answers. */
  lemma Transparent<T>(start: Versions, calls: seq<Call<T>>, k: nat, v1Services: set<string>)
    requires FixedSupport(calls, v1Services) && Sound(start, v1Services) && k < |calls|
    ensures var versions := VersionsAfter(start, calls[..k]);
            Result(versions, calls[k].service, calls[k].v1, calls[k].alpha2) == Direct(calls[k], v1Services)
  {
    RunsStaySound(start, calls[..k], v1Services);
  }

  /** Whatever the server does, a service is on v1alpha2 exactly when it was at the start or one of its
      calls has been rejected by v1 since: it never leaves v1alpha2, and only its own calls move it. */
  lemma {:induction false} OnAlpha2Iff<T>(start: Versions, calls: seq<Call<T>>, service: string)
    ensures OnAlpha2(VersionsAfter(start, calls), service)
            <==> OnAlpha2(start, service)
                 || exists k :: 0 <= k < |calls| && calls[k].service == service && Rejected(calls[k].v1)
    decreases |calls|
  {
    if calls != [] {
      var rest := calls[1..];
      OnAlpha2Iff(After(start, calls[0].service, calls[0].v1), rest, service);
      assert forall k :: 0 < k < |calls| ==> calls[k] == rest[k-1];
      assert forall k :: 0 <= k < |rest| ==> rest[k] == calls[k+1];
    }
  }

  /** A service asks v1 in vain at most once in a sequential run. */
  lemma RejectedOnce<T>(start: Versions, calls: seq<Call<T>>, i: nat, j: nat)
    requires i < j < |calls| && calls[i].service == calls[j].service && Rejected(calls[i].v1)
    ensures Asked(VersionsAfter(start, calls[..j]), calls[j].service, calls[j].v1) == [V1Alpha2]
  {
    OnAlpha2Iff(start, calls[..j], calls[j].service);
    assert calls[..j][i] == calls[i];
  }

  function OfService<T>(service: string): Call<T> -> bool { (c: Call<T>) => c.service == service }

  /** What is recorded for a service depends on its own calls alone. */
  lemma {:induction false} ServicesIndependent<T>(start: Versions, other: Versions, calls: seq<Call<T>>,
                                                  service: string)
    requires service in start <==> service in other
    requires service in start ==> start[service] == other[service]
    ensures var a, b := VersionsAfter(start, calls), VersionsAfter(other, Filter(calls, OfService(service)));
            (service in a <==> service in b) && (service in a ==> a[service] == b[service])
    decreases |calls|
  {
    if calls != [] {
      var rest := Filter(calls[1..], OfService(service));
      var next := After(start, calls[0].service, calls[0].v1);
      if calls[0].service == service {
        ServicesIndependent(next, After(other, service, calls[0].v1), calls[1..], service);
        assert Filter(calls, OfService(service)) == [calls[0]] + rest && ([calls[0]] + rest)[1..] == rest;
      } else {
        ServicesIndependent(next, other, calls[1..], service);
        assert Filter(calls, OfService(service)) == rest;
      }
    }
  }

  // ---------- Interleaved calls ----------

  /** How far a concurrent call has come: before the lookup, waiting for v1, holding the v1 answer but not
      yet recording it, waiting for v1alpha2, or returned. */
  datatype Phase<T> = Unstarted | AskingV1 | HoldingV1 | AskingAlpha2 | Returned(reply: Reply<T>)

  datatype State<T> = State(versions: Versions, phases: seq<Phase<T>>)

  function Advanced<T>(versions: Versions, phase: Phase<T>, call: Call<T>): (Versions, Phase<T>) {
    match phase
    case Unstarted => (versions, if OnAlpha2(versions, call.service) then AskingAlpha2 else AskingV1)
    case AskingV1 => (versions, HoldingV1)
    case HoldingV1 =>
      (Recorded(versions, call.service, call.v1), if Rejected(call.v1) then AskingAlpha2 else Returned(call.v1))
    case AskingAlpha2 => (versions, Returned(call.alpha2))
    case Returned(_) => (versions, phase)
  }

  /** The state after the first n turns; each turn takes one call one phase further. */
  function Interleaved<T>(start: Versions, calls: seq<Call<T>>, turns: seq<nat>, n: nat): (state: State<T>)
    requires n <= |turns| && forall i :: 0 <= i < n ==> turns[i] < |calls|
    ensures |state.phases| == |calls|
  {
    if n == 0 then State(start, seq(|calls|, _ => Unstarted))
    else
      var before := Interleaved(start, calls, turns, n - 1);
      var (versions, phase) := Advanced(before.versions, before.phases[turns[n-1]], calls[turns[n-1]]);
      State(versions, before.phases[turns[n-1] := phase])
  }

  /** What holds of a concurrent call against a server with fixed support. */
  ghost predicate PhaseSound<T>(phase: Phase<T>, call: Call<T>, v1Services: set<string>) {
    match phase
    case Unstarted => true
    case AskingV1 => true
    case HoldingV1 => true
    case AskingAlpha2 => call.service !in v1Services
    case Returned(reply) => reply == Direct(call, v1Services)
  }

  /** Under every interleaving, with a server of fixed support, only implemented versions are recorded and
      every call that returns does so with the answer of the supported API. */
  lemma {:induction false} InterleavedTransparent<T>(start: Versions, calls: seq<Call<T>>, turns: seq<nat>, n: nat,
                                                     v1Services: set<string>)
    requires n <= |turns| && forall i :: 0 <= i < n ==> turns[i] < |calls|
    requires FixedSupport(calls, v1Services) && Sound(start, v1Services)
    ensures var state := Interleaved(start, calls, turns, n);
            && Sound(state.versions, v1Services)
            && forall c :: 0 <= c < |calls| ==> PhaseSound(state.phases[c], calls[c], v1Services)
  {
    if n > 0 {
      InterleavedTransparent(start, calls, turns, n - 1, v1Services);
      var before := Interleaved(start, calls, turns, n - 1);
      var c := turns[n-1];
      assert PhaseSound(before.phases[c], calls[c], v1Services);
      assert Rejected(calls[c].v1) <==> calls[c].service !in v1Services;
    }
  }

  /** A call finishes within four of its turns, and then stays finished. */
  function TurnsLeft<T>(phase: Phase<T>): nat {
    match phase
    case Unstarted => 4
    case AskingV1 => 3
    case HoldingV1 => 2
    case AskingAlpha2 => 1
    case Returned(_) => 0
  }

  function TurnsOf(turns: seq<nat>, n: nat, c: nat): nat
    requires n <= |turns|
  {
    if n == 0 then 0 else TurnsOf(turns, n - 1, c) + (if turns[n-1] == c then 1 else 0)
  }

  lemma {:induction false} FinishesInFour<T>(start: Versions, calls: seq<Call<T>>, turns: seq<nat>, n: nat, c: nat)
    requires n <= |turns| && (forall i :: 0 <= i < n ==> turns[i] < |calls|) && c < |calls|
    ensures TurnsLeft(Interleaved(start, calls, turns, n).phases[c]) + TurnsOf(turns, n, c) <= 4
            || Interleaved(start, calls, turns, n).phases[c].Returned?
    ensures TurnsOf(turns, n, c) >= 4 ==> Interleaved(start, calls, turns, n).phases[c].Returned?
  {
    if n > 0 { FinishesInFour(start, calls, turns, n - 1, c); }
  }

  predicate Turns<T>(calls: seq<Call<T>>, turns: seq<nat>) { forall i :: 0 <= i < |turns| ==> turns[i] < |calls| }

  /** Turn n takes service back off v1alpha2. */
  predicate Undone<T>(start: Versions, calls: seq<Call<T>>, turns: seq<nat>, n: nat, service: string)
    requires Turns(calls, turns) && n < |turns|
  {
    && OnAlpha2(Interleaved(start, calls, turns, n).versions, service)
    && !OnAlpha2(Interleaved(start, calls, turns, n + 1).versions, service)
  }

  /** A turn undoes a fallback exactly when its call holds a v1 answer that is recorded as v1. */
  lemma UndoingTurn<T>(start: Versions, calls: seq<Call<T>>, turns: seq<nat>, n: nat, service: string)
    requires Turns(calls, turns) && n < |turns|
    requires OnAlpha2(Interleaved(start, calls, turns, n).versions, service)
    ensures Undone(start, calls, turns, n, service)
            <==> (var c := turns[n];
                  && calls[c].service == service && !RaisedAtOnce(calls[c].v1)
                  && Interleaved(start, calls, turns, n).phases[c] == HoldingV1)
  {
  }

  lemma {:induction false} RejectedBefore<T>(start: Versions, calls: seq<Call<T>>, turns: seq<nat>, n: nat,
                                             service: string)
    requires Turns(calls, turns) && n <= |turns| && !OnAlpha2(start, service)
    requires OnAlpha2(Interleaved(start, calls, turns, n).versions, service)
    ensures exists c :: 0 <= c < |calls| && calls[c].service == service && Rejected(calls[c].v1)
  {
    if !OnAlpha2(Interleaved(start, calls, turns, n - 1).versions, service) {
      assert calls[turns[n-1]].service == service && Rejected(calls[turns[n-1]].v1);
    } else {
      RejectedBefore(start, calls, turns, n - 1, service);
    }
  }

  /** Both calls look up the version and get their v1 answers before either records. */
  lemma TwoCallsUndo<T>(start: Versions, calls: seq<Call<T>>, i: nat, j: nat, service: string)
    requires i < |calls| && j < |calls| && calls[i].service == service && calls[j].service == service
    requires !OnAlpha2(start, service) && Rejected(calls[i].v1) && !RaisedAtOnce(calls[j].v1)
    ensures Turns(calls, [i, i, j, j, i, j]) && Undone(start, calls, [i, i, j, j, i, j], 5, service)
  {
    var turns := [i, i, j, j, i, j];
    var s0 := Interleaved(start, calls, turns, 0);
    var s2 := Interleaved(start, calls, turns, 2);
    assert Interleaved(start, calls, turns, 1) == State(start, s0.phases[i := AskingV1]);
    assert s2.versions == start && s2.phases[i] == HoldingV1 && s2.phases[j] == Unstarted;
    var s3, s4 := Interleaved(start, calls, turns, 3), Interleaved(start, calls, turns, 4);
    assert s3.versions == start && s3.phases[i] == HoldingV1 && s3.phases[j] == AskingV1;
    assert s4.versions == start && s4.phases[i] == HoldingV1 && s4.phases[j] == HoldingV1;
    var s5 := Interleaved(start, calls, turns, 5);
    assert s5.versions == start[service := V1Alpha2] && s5.phases[j] == HoldingV1;
  }

  /** Concurrent calls can undo a fallback of a service exactly when one of its calls is rejected by v1 and
      another one gets a v1 answer that is recorded as v1. */
  lemma FallbackUndoneIff<T>(start: Versions, calls: seq<Call<T>>, service: string)
    requires !OnAlpha2(start, service)
    ensures (exists turns, n :: Turns(calls, turns) && 0 <= n < |turns| && Undone(start, calls, turns, n, service))
            <==> exists i, j :: 0 <= i < |calls| && 0 <= j < |calls| && calls[i].service == service
                                && calls[j].service == service && Rejected(calls[i].v1) && !RaisedAtOnce(calls[j].v1)
  {
    if turns, n :| Turns(calls, turns) && 0 <= n < |turns| && Undone(start, calls, turns, n, service) {
      UndoingTurn(start, calls, turns, n, service);
      RejectedBefore(start, calls, turns, n, service);
      var i :| 0 <= i < |calls| && calls[i].service == service && Rejected(calls[i].v1);
      assert calls[turns[n]].service == service && !RaisedAtOnce(calls[turns[n]].v1);
    }
    if i, j :| 0 <= i < |calls| && 0 <= j < |calls| && calls[i].service == service && calls[j].service == service
               && Rejected(calls[i].v1) && !RaisedAtOnce(calls[j].v1) {
      TwoCallsUndo(start, calls, i, j, service);
    }
  }

  /** The witness: of two calls of one service, the first is rejected and the second answered. */
  lemma FallbackUndone(v1: Reply<int>, alpha2: Reply<int>)
    requires !RaisedAtOnce(v1)
    ensures var calls := [Call("s", Reply([], Failed(Unimplemented)), alpha2), Call("s", v1, alpha2)];
            var turns := [0, 0, 1, 1, 0, 1];
            && OnAlpha2(Interleaved(map[], calls, turns, 5).versions, "s")
            && !OnAlpha2(Interleaved(map[], calls, turns, 6).versions, "s")
  {
    TwoCallsUndo(map[], [Call("s", Reply([], Failed(Unimplemented)), alpha2), Call("s", v1, alpha2)], 0, 1, "s");
  }
}
