// How one kind of nested resource is listed (list-project-resources.py, BuiltinSDKProvider._list_spec):
// one request per distinct combination of parent objects, then the ownership filter.

module Inventory {
  import opened Options
  import opened Worklist

  /** A listed object: its attributes as text, the project its links point at, and the attributes of its
      project and of its location's project, where it has them. */
  datatype Obj = Obj(attrs: map<string, string>, links: Option<string>, project: map<string, string>,
                     location: map<string, string>)

  type Answer = Listing<Obj>

  /** What a service says to one request; Rejects is an error about the project filter. */
  datatype Response = Lists(objs: seq<Obj>) | Rejects | NoSuchType | Error

  /** The services, as seen during one collection: the response depends on the request only. The filter of a
      kind is the query parameter that takes the project, if it has one. */
  datatype Client = Client(
    respond: (string, map<string, string>) -> Response,
    filterKey: string -> Option<string>)

  // ---------- Names ----------

  function Lower(c: char): char {
    if 'A' <= c <= 'Z' then (c as int + 32) as char else c
  }

  function NormalizedName(s: string): string {
    if s == "" then ""
    else
      var c := Lower(s[0]);
      (if 'a' <= c <= 'z' || '0' <= c <= '9' then [c] else "") + NormalizedName(s[1..])
  }

  predicate EndsWith(s: string, suffix: string) { |suffix| <= |s| && s[|s|-|suffix|..] == suffix }

  function ParentName(placeholder: string): string {
    if EndsWith(placeholder, "_id") then NormalizedName(placeholder[..|placeholder|-3])
    else if EndsWith(placeholder, "_name") then NormalizedName(placeholder[..|placeholder|-5])
    else NormalizedName(placeholder)
  }

  // ---------- One spec ----------

  function Get(o: Obj, key: string): Option<string> {
    if key in o.attrs then Some(o.attrs[key]) else None
  }

  function NameOrId(o: Obj): Option<string> {
    var name := Get(o, "name");
    if name.Some? && name.value != "" then name else Get(o, "id")
  }

  /** The value of a placeholder read off a parent object. */
  function ResourceAttr(o: Obj, key: string): Option<string> {
    if key in o.attrs then Some(o.attrs[key])
    else if EndsWith(key, "_id") then Get(o, "id")
    else if EndsWith(key, "_name") then NameOrId(o)
    else if key in ["container", "queue_name", "stack_name", "namespace_name"] then NameOrId(o)
    else None
  }

  function FirstPresent(attrs: map<string, string>, keys: seq<string>): Option<string> {
    if keys == [] then None
    else if keys[0] in attrs then Some(attrs[keys[0]])
    else FirstPresent(attrs, keys[1..])
  }

  function OrElse(a: Option<string>, b: Option<string>): Option<string> { if a.Some? then a else b }

  /** _project_value: explicit fields, links, the project, the location's project, and last the stack user's
      project. */
  function Owner(o: Obj): Option<string> {
    var nested := ["id", "project_id", "tenant_id"];
    OrElse(FirstPresent(o.attrs, ["project_id", "tenant_id", "tenant", "owner"]),
      OrElse(o.links,
        OrElse(FirstPresent(o.project, nested),
          OrElse(FirstPresent(o.location, nested), Get(o, "user_project_id")))))
  }

  predicate BelongsToProject(o: Obj, project: string) {
    Owner(o).None? || Owner(o).value == project
  }

  /** Read off the fields: the first of them that is there names the project, and an object without any is taken
      for the project's own. The stack user's project counts last. */
  predicate OfProject(o: Obj, project: string) {
    if "project_id" in o.attrs then o.attrs["project_id"] == project
    else if "tenant_id" in o.attrs then o.attrs["tenant_id"] == project
    else if "tenant" in o.attrs then o.attrs["tenant"] == project
    else if "owner" in o.attrs then o.attrs["owner"] == project
    else if o.links.Some? then o.links.value == project
    else if "id" in o.project then o.project["id"] == project
    else if "project_id" in o.project then o.project["project_id"] == project
    else if "tenant_id" in o.project then o.project["tenant_id"] == project
    else if "id" in o.location then o.location["id"] == project
    else if "project_id" in o.location then o.location["project_id"] == project
    else if "tenant_id" in o.location then o.location["tenant_id"] == project
    else "user_project_id" in o.attrs ==> o.attrs["user_project_id"] == project
  }

  lemma OwnerDecides(o: Obj, project: string)
    ensures BelongsToProject(o, project) <==> OfProject(o, project)
  {
    FirstOfThree(o.project);
    FirstOfThree(o.location);
    FirstNext(o.attrs, "project_id", ["tenant_id", "tenant", "owner"]);
    FirstNext(o.attrs, "tenant_id", ["tenant", "owner"]);
    FirstNext(o.attrs, "tenant", ["owner"]);
    FirstNext(o.attrs, "owner", []);
  }

  lemma FirstNext(attrs: map<string, string>, key: string, rest: seq<string>)
    ensures FirstPresent(attrs, [key] + rest) == if key in attrs then Some(attrs[key]) else FirstPresent(attrs, rest)
  {
    assert ([key] + rest)[1..] == rest;
  }

  lemma FirstOfThree(attrs: map<string, string>)
    ensures FirstPresent(attrs, ["id", "project_id", "tenant_id"])
            == if "id" in attrs then Some(attrs["id"])
               else if "project_id" in attrs then Some(attrs["project_id"])
               else if "tenant_id" in attrs then Some(attrs["tenant_id"])
               else None
  {
    FirstNext(attrs, "id", ["project_id", "tenant_id"]);
    FirstNext(attrs, "project_id", ["tenant_id"]);
    FirstNext(attrs, "tenant_id", []);
  }

  /** itertools.product: one object from every list. */
  function Product(lists: seq<seq<Obj>>): seq<seq<Obj>> {
    if lists == [] then [[]] else Prepend(lists[0], Product(lists[1..]))
  }

  function Prepend(heads: seq<Obj>, tails: seq<seq<Obj>>): seq<seq<Obj>> {
    if heads == [] then []
    else seq(|tails|, i requires 0 <= i < |tails| => [heads[0]] + tails[i]) + Prepend(heads[1..], tails)
  }

  /** The request arguments for one combination of parents; None when a parent lacks its value. */
  function Kwargs(placeholders: seq<string>, combination: seq<Obj>): Option<map<string, string>> {
    if placeholders == [] || combination == [] then Some(map[])
    else
      var rest := Kwargs(placeholders[1..], combination[1..]);
      var v := ResourceAttr(combination[0], placeholders[0]);
      if rest.None? || v.None? then None
      else Some(rest.value[placeholders[0] := v.value])
  }

  /** _project_kwargs. */
  function ProjectFilter(client: Client, project: string, name: string): map<string, string> {
    var key := client.filterKey(name);
    if key.Some? then map[key.value := project] else map[]
  }

  /** What one combination asks for, with the project filter. */
  function RequestFor(placeholders: seq<string>, extra: map<string, string>, combination: seq<Obj>)
    : Option<map<string, string>>
  {
    var kwargs := Kwargs(placeholders, combination);
    if kwargs.None? then None else Some(kwargs.value + extra)
  }

  /** The values among the first n, each distinct one once. */
  function Distincts<T(==)>(vs: seq<Option<T>>, n: nat): seq<T>
    requires n <= |vs|
  {
    if n == 0 then []
    else
      var before := Distincts(vs, n - 1);
      if vs[n-1].None? || vs[n-1].value in before then before else before + [vs[n-1].value]
  }

  lemma {:induction false} DistinctsExact<T>(vs: seq<Option<T>>, n: nat)
    requires n <= |vs|
    ensures var r := Distincts(vs, n);
            && (forall i, j :: 0 <= i < j < |r| ==> r[i] != r[j])
            && (forall k :: k in r <==> exists i :: 0 <= i < n && vs[i] == Some(k))
  {
    if n > 0 {
      DistinctsExact(vs, n - 1);
      var before, r := Distincts(vs, n - 1), Distincts(vs, n);
      forall k ensures k in r <==> exists i :: 0 <= i < n && vs[i] == Some(k) {
        if k in before {
          var i :| 0 <= i < n - 1 && vs[i] == Some(k);
        }
      }
    }
  }

  lemma {:induction false} DistinctsGrow<T>(vs: seq<Option<T>>, n: nat, m: nat)
    requires n <= m <= |vs|
    ensures Distincts(vs, n) <= Distincts(vs, m)
    decreases m
  {
    if n < m { DistinctsGrow(vs, n, m - 1); }
  }

  function Asked(placeholders: seq<string>, extra: map<string, string>, combos: seq<seq<Obj>>)
    : seq<Option<map<string, string>>>
  {
    seq(|combos|, i requires 0 <= i < |combos| => RequestFor(placeholders, extra, combos[i]))
  }

  /** The requests made for the combinations, each with the project filter: complete ones, each distinct one
      once. */
  function Requests(placeholders: seq<string>, extra: map<string, string>, combos: seq<seq<Obj>>)
    : seq<map<string, string>>
  {
    Distincts(Asked(placeholders, extra, combos), |combos|)
  }

  /** No request is sent twice, and exactly the complete combinations of parents are asked for. */
  lemma RequestsExact(placeholders: seq<string>, extra: map<string, string>, combos: seq<seq<Obj>>)
    ensures var r := Requests(placeholders, extra, combos);
            && (forall i, j :: 0 <= i < j < |r| ==> r[i] != r[j])
            && (forall k :: k in r <==>
                 exists i :: 0 <= i < |combos| && RequestFor(placeholders, extra, combos[i]) == Some(k))
  {
    var asked, r := Asked(placeholders, extra, combos), Requests(placeholders, extra, combos);
    DistinctsExact(asked, |combos|);
    assert r == Distincts(asked, |combos|);
    forall k
      ensures k in r <==> exists i :: 0 <= i < |combos| && RequestFor(placeholders, extra, combos[i]) == Some(k)
    {
      if i :| 0 <= i < |combos| && asked[i] == Some(k) { }
      if i :| 0 <= i < |combos| && RequestFor(placeholders, extra, combos[i]) == Some(k) {
        assert asked[i] == Some(k);
      }
    }
  }

  /** The combinations are exactly the ways to take one object from every list. */
  lemma {:induction false} ProductExact(lists: seq<seq<Obj>>, c: seq<Obj>)
    ensures c in Product(lists) <==> |c| == |lists| && forall i :: 0 <= i < |lists| ==> c[i] in lists[i]
  {
    if lists != [] {
      PrependExact(lists[0], Product(lists[1..]), c);
      if c != [] {
        ProductExact(lists[1..], c[1..]);
        if |c| == |lists| && forall i :: 0 <= i < |lists| ==> c[i] in lists[i] {
          assert c[1..] in Product(lists[1..]);
        }
        if c in Product(lists) {
          forall i | 0 <= i < |lists| ensures c[i] in lists[i] {
            if i > 0 { assert c[i] == c[1..][i-1] && lists[i] == lists[1..][i-1]; }
          }
        }
      }
    } else {
      assert c in [[]] <==> c == [];
    }
  }

  /** The last list runs fastest: all the rest comes with one head before the next head comes. */
  lemma {:induction false} PrependInOrder(first: seq<Obj>, later: seq<Obj>, tails: seq<seq<Obj>>)
    ensures Prepend(first + later, tails) == Prepend(first, tails) + Prepend(later, tails)
  {
    if first == [] {
      assert first + later == later;
    } else {
      assert (first + later)[1..] == first[1..] + later;
      PrependInOrder(first[1..], later, tails);
    }
  }

  lemma PrependOne(head: Obj, tails: seq<seq<Obj>>)
    ensures |Prepend([head], tails)| == |tails|
    ensures forall t :: 0 <= t < |tails| ==> Prepend([head], tails)[t] == [head] + tails[t]
  {
    assert Prepend([head][1..], tails) == [];
  }

  lemma {:induction false} PrependExact(heads: seq<Obj>, tails: seq<seq<Obj>>, c: seq<Obj>)
    ensures c in Prepend(heads, tails) <==> c != [] && c[0] in heads && c[1..] in tails
  {
    if heads != [] {
      PrependExact(heads[1..], tails, c);
      var first := seq(|tails|, i requires 0 <= i < |tails| => [heads[0]] + tails[i]);
      if c != [] && c[0] == heads[0] && c[1..] in tails {
        var i :| 0 <= i < |tails| && tails[i] == c[1..];
        assert first[i] == c;
      }
      if c in first {
        var i :| 0 <= i < |tails| && first[i] == c;
        assert c[1..] == tails[i];
      }
    }
  }

  function OwnedBy(objs: seq<Obj>, project: string): (r: seq<Obj>)
    ensures forall o :: o in r <==> o in objs && BelongsToProject(o, project)
  {
    if objs == [] then []
    else (if BelongsToProject(objs[0], project) then [objs[0]] else []) + OwnedBy(objs[1..], project)
  }

  /** One request; a service that rejects the project filter is asked again without it. */
  function Ask(client: Client, name: string, kwargs: map<string, string>, extra: map<string, string>): Answer {
    var first := client.respond(name, kwargs);
    AnswerOf(if first.Rejects? && extra != map[] then client.respond(name, kwargs - extra.Keys) else first)
  }

  function AnswerOf(response: Response): Answer {
    match response
    case Lists(objs) => Objects(objs)
    case Rejects => Failed
    case NoSuchType => Missing
    case Error => Failed
  }

  /** All answers in order; the first answer that is not a list ends the listing. */
  function Answers(client: Client, name: string, extra: map<string, string>, requests: seq<map<string, string>>, n: nat)
    : Answer
    requires n <= |requests|
  {
    if n == 0 then Objects([])
    else
      var before := Answers(client, name, extra, requests, n - 1);
      if !before.Objects? then before
      else
        var a := Ask(client, name, requests[n-1], extra);
        if a.Objects? then Objects(before.objs + a.objs) else a
  }

  function ListingOf(client: Client, project: string, k: Kind, parents: seq<seq<Obj>>): Answer {
    var combos, extra := Product(parents), ProjectFilter(client, project, k.name);
    var requests := Requests(k.placeholders, extra, combos);
    var a := Answers(client, k.name, extra, requests, |requests|);
    if a.Objects? then Objects(OwnedBy(a.objs, project)) else a
  }

  // ---------- The code ----------

  /** _list_with_project_filter_fallback. */
  method ListWithFallback(client: Client, name: string, kwargs: map<string, string>, extra: map<string, string>)
    returns (r: Answer)
    ensures r == Ask(client, name, kwargs, extra)
  {
    var response := client.respond(name, kwargs);
    if response.Rejects? && extra != map[] {
      response := client.respond(name, kwargs - extra.Keys);
    }
    match response
    case Lists(objs) => r := Objects(objs);
    case Rejects => r := Failed;
    case NoSuchType => r := Missing;
    case Error => r := Failed;
  }

  /** _list_spec for a spec whose parents are there. */
  method ListSpec(client: Client, project: string, k: Kind, parents: seq<seq<Obj>>) returns (r: Answer)
    requires k.placeholders == [] ==> parents == []
    ensures r == ListingOf(client, project, k, parents)
  {
    var extra := ProjectFilter(client, project, k.name);
    if k.placeholders == [] {
      r := ListWithFallback(client, k.name, extra, extra);
      OneRequest(client, k.name, extra);
    } else {
      r := ListCombinations(client, k, parents, extra);
    }
    if r.Objects? { r := Objects(OwnedBy(r.objs, project)); }
  }

  /** The loop over the combinations of parents. */
  method ListCombinations(client: Client, k: Kind, parents: seq<seq<Obj>>, extra: map<string, string>)
    returns (r: Answer)
    ensures var requests := Requests(k.placeholders, extra, Product(parents));
            r == Answers(client, k.name, extra, requests, |requests|)
  {
    var combos := Product(parents);
    r := AskEach(client, k.name, extra, Asked(k.placeholders, extra, combos));
  }

  method AskEach(client: Client, name: string, extra: map<string, string>, asked: seq<Option<map<string, string>>>)
    returns (r: Answer)
    ensures var requests := Distincts(asked, |asked|); r == Answers(client, name, extra, requests, |requests|)
  {
    var seen: seq<map<string, string>> := [];
    var n := 0;
    r := Objects([]);
    while n < |asked| && r.Objects?
      invariant n <= |asked|
      invariant seen == Distincts(asked, n)
      invariant Answers(client, name, extra, seen, |seen|) == r
    {
      if asked[n].Some? && asked[n].value !in seen {
        AnswersPrefix(client, name, extra, seen, seen + [asked[n].value], |seen|);
        seen := seen + [asked[n].value];
        var a := ListWithFallback(client, name, asked[n].value, extra);
        r := if a.Objects? then Objects(r.objs + a.objs) else a;
      }
      n := n + 1;
    }
    if !r.Objects? {
      ghost var all := Distincts(asked, |asked|);
      DistinctsGrow(asked, n, |asked|);
      AnswersSettled(client, name, extra, seen, all, |all|);
    }
  }

  /** Without placeholders there is one combination, and it asks for the project filter alone. */
  lemma OneRequest(client: Client, name: string, extra: map<string, string>)
    ensures var requests := Requests([], extra, Product([]));
            Answers(client, name, extra, requests, |requests|) == Ask(client, name, extra, extra)
  {
    var combos := Product([]);
    assert combos == [[]] && Kwargs([], []) == Some(map[]) && map[] + extra == extra;
    var asked := Asked([], extra, combos);
    assert asked == [Some(extra)] && Distincts(asked, 0) == [] && Distincts(asked, 1) == [extra];
    assert Answers(client, name, extra, [extra], 0) == Objects([]);
  }

  lemma {:induction false} AnswersPrefix(client: Client, name: string, extra: map<string, string>,
                                         a: seq<map<string, string>>, b: seq<map<string, string>>, n: nat)
    requires a <= b && n <= |a|
    ensures Answers(client, name, extra, a, n) == Answers(client, name, extra, b, n)
  {
    if n > 0 { AnswersPrefix(client, name, extra, a, b, n - 1); }
  }

  lemma {:induction false} AnswersSettled(client: Client, name: string, extra: map<string, string>,
                                          a: seq<map<string, string>>, b: seq<map<string, string>>, n: nat)
    requires a <= b && |a| <= n <= |b| && !Answers(client, name, extra, a, |a|).Objects?
    ensures Answers(client, name, extra, b, n) == Answers(client, name, extra, a, |a|)
    decreases n
  {
    if n == |a| {
      AnswersPrefix(client, name, extra, a, b, n);
    } else {
      AnswersSettled(client, name, extra, a, b, n - 1);
    }
  }

  // ---------- What the project filter changes ----------

  function Unfiltered(client: Client): Client { Client(client.respond, (name: string) => None) }

  /** Two answers that leave the same objects of the project, or are the same failure. */
  predicate SameListing(a: Answer, b: Answer, project: string) { Owned(a, project) == Owned(b, project) }

  /** The answer without the objects of other projects. */
  function Owned(a: Answer, project: string): Answer {
    if a.Objects? then Objects(OwnedBy(a.objs, project)) else a
  }

  /** The service rejects the filter of this request, or leaves out objects of other projects only. */
  predicate Honours(client: Client, project: string, name: string, plain: map<string, string>,
                    extra: map<string, string>)
  {
    var filtered := client.respond(name, plain + extra);
    (filtered.Rejects? && extra != map[])
    || SameListing(AnswerOf(filtered), AnswerOf(client.respond(name, plain)), project)
  }

  /** One request with its filter, rejected or not, lists what the request without it lists. */
  lemma FallbackTransparent(client: Client, project: string, name: string, plain: map<string, string>,
                            extra: map<string, string>)
    requires plain.Keys !! extra.Keys && Honours(client, project, name, plain, extra)
    ensures SameListing(Ask(client, name, plain + extra, extra), Ask(Unfiltered(client), name, plain, map[]), project)
  {
    assert plain + extra - extra.Keys == plain;
  }

  lemma {:induction false} KwargsKeys(placeholders: seq<string>, c: seq<Obj>)
    requires Kwargs(placeholders, c).Some?
    ensures forall k :: k in Kwargs(placeholders, c).value ==> k in placeholders
  {
    if placeholders != [] && c != [] { KwargsKeys(placeholders[1..], c[1..]); }
  }

  /** The filter added to each of the requests. */
  function WithFilter(requests: seq<map<string, string>>, extra: map<string, string>)
    : (r: seq<map<string, string>>)
    ensures |r| == |requests| && forall i :: 0 <= i < |r| ==> r[i] == requests[i] + extra
  {
    seq(|requests|, i requires 0 <= i < |requests| => requests[i] + extra)
  }

  /** Without a placeholder of the filter's name the filtered requests are the plain ones with the filter. */
  lemma {:induction false} RequestsWithFilter(asked: seq<Option<map<string, string>>>,
                                              plain: seq<Option<map<string, string>>>, extra: map<string, string>,
                                              n: nat)
    requires n <= |asked| == |plain|
    requires forall i :: 0 <= i < n ==> asked[i] == if plain[i].Some? then Some(plain[i].value + extra) else None
    requires forall i :: 0 <= i < n && plain[i].Some? ==> plain[i].value.Keys !! extra.Keys
    ensures Distincts(asked, n) == WithFilter(Distincts(plain, n), extra)
    ensures forall q :: q in Distincts(plain, n) ==> q.Keys !! extra.Keys
  {
    if n > 0 {
      RequestsWithFilter(asked, plain, extra, n - 1);
      var before, filtered := Distincts(plain, n - 1), Distincts(asked, n - 1);
      if plain[n-1].Some? {
        SameSeen(before, filtered, plain[n-1].value, extra);
      }
    }
  }

  lemma SameSeen(before: seq<map<string, string>>, filtered: seq<map<string, string>>, q: map<string, string>,
                 extra: map<string, string>)
    requires filtered == WithFilter(before, extra) && q.Keys !! extra.Keys
    requires forall b :: b in before ==> b.Keys !! extra.Keys
    ensures q + extra in filtered <==> q in before
  {
    if q in before {
      var i :| 0 <= i < |before| && before[i] == q;
      assert filtered[i] == q + extra;
    }
    if q + extra in filtered {
      var i :| 0 <= i < |filtered| && filtered[i] == q + extra;
      assert before[i] + extra - extra.Keys == before[i] && q + extra - extra.Keys == q;
    }
  }

  lemma {:induction false} OwnedJoin(a: seq<Obj>, b: seq<Obj>, project: string)
    ensures OwnedBy(a + b, project) == OwnedBy(a, project) + OwnedBy(b, project)
  {
    if a == [] {
      assert a + b == b;
    } else {
      assert (a + b)[1..] == a[1..] + b;
      OwnedJoin(a[1..], b, project);
    }
  }

  predicate AllHonoured(client: Client, project: string, name: string, plain: seq<map<string, string>>,
                        extra: map<string, string>)
  {
    forall q {:trigger Honours(client, project, name, q, extra)} ::
      q in plain ==> Honours(client, project, name, q, extra)
  }

  /** One more answer after others. */
  function Joined(a: Answer, next: Answer): Answer {
    if a.Objects? && next.Objects? then Objects(a.objs + next.objs) else if a.Objects? then next else a
  }

  function JoinAll(answers: seq<Answer>, n: nat): Answer
    requires n <= |answers|
  {
    if n == 0 then Objects([]) else Joined(JoinAll(answers, n - 1), answers[n-1])
  }

  function EachAsked(client: Client, name: string, extra: map<string, string>, requests: seq<map<string, string>>)
    : seq<Answer>
  {
    seq(|requests|, i requires 0 <= i < |requests| => Ask(client, name, requests[i], extra))
  }

  lemma {:induction false} AnswersAre(client: Client, name: string, extra: map<string, string>,
                                      requests: seq<map<string, string>>, n: nat)
    requires n <= |requests|
    ensures Answers(client, name, extra, requests, n) == JoinAll(EachAsked(client, name, extra, requests), n)
  {
    if n > 0 { AnswersAre(client, name, extra, requests, n - 1); }
  }

  lemma {:induction false} JoinAllSame(a: seq<Answer>, b: seq<Answer>, n: nat, project: string)
    requires n <= |a| == |b|
    requires forall i {:trigger SameListing(a[i], b[i], project)} ::
               0 <= i < |a| ==> SameListing(a[i], b[i], project)
    ensures SameListing(JoinAll(a, n), JoinAll(b, n), project)
  {
    if n > 0 {
      JoinAllSame(a, b, n - 1, project);
      assert SameListing(a[n-1], b[n-1], project);
      OwnedJoined(JoinAll(a, n - 1), a[n-1], project);
      OwnedJoined(JoinAll(b, n - 1), b[n-1], project);
    }
  }

  lemma AnswersTransparent(client: Client, project: string, name: string, extra: map<string, string>,
                           plain: seq<map<string, string>>)
    requires forall q :: q in plain ==> q.Keys !! extra.Keys
    requires AllHonoured(client, project, name, plain, extra)
    ensures SameListing(Answers(client, name, extra, WithFilter(plain, extra), |plain|),
                        Answers(Unfiltered(client), name, map[], plain, |plain|), project)
  {
    var filtered := WithFilter(plain, extra);
    var a, b := EachAsked(client, name, extra, filtered), EachAsked(Unfiltered(client), name, map[], plain);
    forall i | 0 <= i < |a| ensures SameListing(a[i], b[i], project) {
      assert Honours(client, project, name, plain[i], extra);
      FallbackTransparent(client, project, name, plain[i], extra);
    }
    JoinAllSame(a, b, |plain|, project);
    AnswersAre(client, name, extra, filtered, |plain|);
    AnswersAre(Unfiltered(client), name, map[], plain, |plain|);
  }

  lemma OwnedJoined(a: Answer, next: Answer, project: string)
    ensures Owned(Joined(a, next), project) == Joined(Owned(a, project), Owned(next, project))
  {
    if a.Objects? && next.Objects? { OwnedJoin(a.objs, next.objs, project); }
  }

  /** With services that honour the filter or reject it, listing with the filter and its fallback gives just what
      listing without any filter gives. */
  lemma FilterTransparent(client: Client, project: string, k: Kind, parents: seq<seq<Obj>>)
    requires client.filterKey(k.name).Some? ==> client.filterKey(k.name).value !in k.placeholders
    requires AllHonoured(client, project, k.name, Requests(k.placeholders, map[], Product(parents)),
                         ProjectFilter(client, project, k.name))
    ensures ListingOf(client, project, k, parents) == ListingOf(Unfiltered(client), project, k, parents)
  {
    var combos, extra := Product(parents), ProjectFilter(client, project, k.name);
    var asked, plain := Asked(k.placeholders, extra, combos), Asked(k.placeholders, map[], combos);
    forall i | 0 <= i < |combos|
      ensures asked[i] == if plain[i].Some? then Some(plain[i].value + extra) else None
      ensures plain[i].Some? ==> plain[i].value.Keys !! extra.Keys
    {
      var kwargs := Kwargs(k.placeholders, combos[i]);
      if kwargs.Some? {
        KwargsKeys(k.placeholders, combos[i]);
        assert kwargs.value + map[] == kwargs.value;
      }
    }
    RequestsWithFilter(asked, plain, extra, |combos|);
    var requests := Requests(k.placeholders, map[], combos);
    AnswersTransparent(client, project, k.name, extra, requests);
  }

  // ---------- What a listing holds ----------

  /** The service gave the object to this request, or to the one without its filter after rejecting the filter. */
  predicate Given(client: Client, name: string, request: map<string, string>, extra: map<string, string>, o: Obj) {
    var first, again := client.respond(name, request), client.respond(name, request - extra.Keys);
    || (first.Lists? && o in first.objs)
    || (first.Rejects? && extra != map[] && again.Lists? && o in again.objs)
  }

  lemma {:induction false} JoinedObjects(answers: seq<Answer>, n: nat, o: Obj)
    requires n <= |answers| && JoinAll(answers, n).Objects?
    ensures o in JoinAll(answers, n).objs <==> exists i :: 0 <= i < n && answers[i].Objects? && o in answers[i].objs
    ensures forall i :: 0 <= i < n ==> answers[i].Objects?
  {
    if n > 0 {
      JoinedObjects(answers, n - 1, o);
      if o in JoinAll(answers, n - 1).objs {
        var i :| 0 <= i < n - 1 && answers[i].Objects? && o in answers[i].objs;
      }
    }
  }

  /** A listing that goes through holds exactly the objects of the project that the service gave to one of the
      requests. */
  lemma ListingExact(client: Client, project: string, k: Kind, parents: seq<seq<Obj>>, o: Obj)
    requires ListingOf(client, project, k, parents).Objects?
    ensures var extra := ProjectFilter(client, project, k.name);
            o in ListingOf(client, project, k, parents).objs
            <==> OfProject(o, project) && exists q :: q in Requests(k.placeholders, extra, Product(parents))
                                                      && Given(client, k.name, q, extra, o)
  {
    var extra := ProjectFilter(client, project, k.name);
    var requests := Requests(k.placeholders, extra, Product(parents));
    var asked := EachAsked(client, k.name, extra, requests);
    var all := Answers(client, k.name, extra, requests, |requests|);
    OwnerDecides(o, project);
    AnswersAre(client, k.name, extra, requests, |requests|);
    JoinedObjects(asked, |requests|, o);
    assert o in ListingOf(client, project, k, parents).objs <==> o in all.objs && OfProject(o, project);
    if i :| 0 <= i < |asked| && o in asked[i].objs {
      assert Given(client, k.name, requests[i], extra, o) && requests[i] in requests;
    }
    if q :| q in requests && Given(client, k.name, q, extra, o) {
      var i :| 0 <= i < |requests| && requests[i] == q;
      assert asked[i].Objects? && o in asked[i].objs;
    }
  }

  /** How one request ends: it fails on an error, and on a rejected filter that cannot be left out or is rejected
      again; a missing resource type is no failure. */
  lemma AskOutcome(client: Client, name: string, request: map<string, string>, extra: map<string, string>)
    ensures var first, again := client.respond(name, request), client.respond(name, request - extra.Keys);
            var answer, repeated := Ask(client, name, request, extra), first.Rejects? && extra != map[];
            && (answer.Missing? <==> first.NoSuchType? || (repeated && again.NoSuchType?))
            && (answer.Failed? <==> first.Error? || (first.Rejects? && extra == map[])
                                    || (repeated && (again.Error? || again.Rejects?)))
  {
  }

  predicate FirstToFail(answers: seq<Answer>, i: nat)
    requires i < |answers|
  {
    !answers[i].Objects? && forall j :: 0 <= j < i ==> answers[j].Objects?
  }

  lemma {:induction false} JoinedFailure(answers: seq<Answer>, n: nat)
    requires n <= |answers| && !JoinAll(answers, n).Objects?
    ensures exists i :: 0 <= i < n && FirstToFail(answers, i) && JoinAll(answers, n) == answers[i]
  {
    if !JoinAll(answers, n - 1).Objects? {
      JoinedFailure(answers, n - 1);
      var i :| 0 <= i < n - 1 && FirstToFail(answers, i) && JoinAll(answers, n - 1) == answers[i];
    } else {
      forall j | 0 <= j < n - 1 ensures answers[j].Objects? { JoinedObjectsOnly(answers, n - 1, j); }
      assert FirstToFail(answers, n - 1);
    }
  }

  lemma {:induction false} JoinedObjectsOnly(answers: seq<Answer>, n: nat, j: nat)
    requires j < n <= |answers| && JoinAll(answers, n).Objects?
    ensures answers[j].Objects?
  {
    if j < n - 1 { JoinedObjectsOnly(answers, n - 1, j); }
  }

  /** A listing that does not go through ends as the first request that gave no list does. */
  lemma ListingFailure(client: Client, project: string, k: Kind, parents: seq<seq<Obj>>) returns (i: nat)
    requires !ListingOf(client, project, k, parents).Objects?
    ensures var extra := ProjectFilter(client, project, k.name);
            var asked := EachAsked(client, k.name, extra, Requests(k.placeholders, extra, Product(parents)));
            i < |asked| && FirstToFail(asked, i) && ListingOf(client, project, k, parents) == asked[i]
  {
    var extra := ProjectFilter(client, project, k.name);
    var requests := Requests(k.placeholders, extra, Product(parents));
    var asked := EachAsked(client, k.name, extra, requests);
    AnswersAre(client, k.name, extra, requests, |requests|);
    JoinedFailure(asked, |asked|);
    i :| 0 <= i < |asked| && FirstToFail(asked, i) && JoinAll(asked, |asked|) == asked[i];
  }

  // ---------- What a request asks for ----------

  /** The value of the i-th placeholder, read off the attributes of its parent: its own attribute, or else the id
      or the name. */
  lemma AttrOfId(o: Obj, stem: string)
    ensures var key := stem + "_id";
            ResourceAttr(o, key) == if key in o.attrs then Some(o.attrs[key])
                                    else if "id" in o.attrs then Some(o.attrs["id"]) else None
  {
    assert (stem + "_id")[|stem|..] == "_id";
  }

  lemma AttrOfName(o: Obj, stem: string)
    ensures var key := stem + "_name";
            ResourceAttr(o, key) == if key in o.attrs then Some(o.attrs[key])
                                    else if "name" in o.attrs && o.attrs["name"] != "" then Some(o.attrs["name"])
                                    else if "id" in o.attrs then Some(o.attrs["id"]) else None
  {
    var key := stem + "_name";
    assert key[|stem|..] == "_name";
    EndsLast(key, "_id");
  }

  lemma EndsLast(s: string, suffix: string)
    ensures EndsWith(s, suffix) && suffix != "" ==> s[|s|-1] == suffix[|suffix|-1]
  {
  }

  /** The parent of a placeholder is the kind that its stem names. */
  lemma ParentOfStem(stem: string)
    ensures ParentName(stem + "_id") == NormalizedName(stem) && ParentName(stem + "_name") == NormalizedName(stem)
  {
    var id, name := stem + "_id", stem + "_name";
    assert id[|stem|..] == "_id" && id[..|stem|] == stem;
    assert name[|stem|..] == "_name" && name[..|stem|] == stem;
    EndsLast(name, "_id");
  }

  /** Names are compared by their letters and digits alone, in lower case. */
  lemma {:induction false} NormalizedJoin(s: string, t: string)
    ensures NormalizedName(s + t) == NormalizedName(s) + NormalizedName(t)
  {
    if s == "" {
      assert s + t == t;
    } else {
      assert s + t == [s[0]] + (s[1..] + t);
      NormalizedNext(s[0], s[1..]);
      NormalizedNext(s[0], s[1..] + t);
      NormalizedJoin(s[1..], t);
      assert s == [s[0]] + s[1..];
    }
  }

  lemma NormalizedNext(c: char, s: string)
    ensures NormalizedName([c] + s) == NormalizedName([c]) + NormalizedName(s)
  {
    assert ([c] + s)[1..] == s && [c][1..] == "" && NormalizedName("") == "";
  }

  lemma NormalizedChar(c: char)
    ensures 'a' <= c <= 'z' || '0' <= c <= '9' ==> NormalizedName([c]) == [c]
    ensures 'A' <= c <= 'Z' ==> NormalizedName([c]) == [(c as int - 'A' as int + 'a' as int) as char]
    ensures c in "_- ./" ==> NormalizedName([c]) == ""
  {
    assert NormalizedName([c][1..]) == "";
  }

  predicate Unrepeated(ps: seq<string>) { forall i, j :: 0 <= i < j < |ps| ==> ps[i] != ps[j] }

  /** A request gives every placeholder the value of its own parent, and the filter beside them; it is left out
      exactly when some parent has no value. */
  lemma {:induction false} RequestMeaning(placeholders: seq<string>, extra: map<string, string>, c: seq<Obj>)
    requires |placeholders| == |c| && Unrepeated(placeholders)
    ensures var request := RequestFor(placeholders, extra, c);
            if request.None?
            then exists i :: 0 <= i < |c| && ResourceAttr(c[i], placeholders[i]).None?
            else && (forall key :: key in request.value <==> key in extra || key in placeholders)
                 && (forall key :: key in extra ==> request.value[key] == extra[key])
                 && (forall i :: 0 <= i < |c| && placeholders[i] !in extra ==>
                      ResourceAttr(c[i], placeholders[i]) == Some(request.value[placeholders[i]]))
  {
    if Kwargs(placeholders, c).None? {
      KwargsNone(placeholders, c);
    } else {
      KwargsKeys(placeholders, c);
      forall i | 0 <= i < |c|
        ensures placeholders[i] in Kwargs(placeholders, c).value
        ensures ResourceAttr(c[i], placeholders[i]) == Some(Kwargs(placeholders, c).value[placeholders[i]])
      {
        KwargsValues(placeholders, c, i);
      }
    }
  }

  lemma {:induction false} KwargsNone(placeholders: seq<string>, c: seq<Obj>)
    requires |placeholders| == |c| && Kwargs(placeholders, c).None?
    ensures exists i :: 0 <= i < |c| && ResourceAttr(c[i], placeholders[i]).None?
  {
    if ResourceAttr(c[0], placeholders[0]).Some? {
      var ps, rest := placeholders[1..], c[1..];
      KwargsNone(ps, rest);
      var i :| 0 <= i < |rest| && ResourceAttr(rest[i], ps[i]).None?;
      assert ResourceAttr(c[i+1], placeholders[i+1]).None?;
    }
  }

  lemma {:induction false} KwargsValues(placeholders: seq<string>, c: seq<Obj>, i: nat)
    requires i < |placeholders| == |c| && Unrepeated(placeholders) && Kwargs(placeholders, c).Some?
    ensures placeholders[i] in Kwargs(placeholders, c).value
    ensures ResourceAttr(c[i], placeholders[i]) == Some(Kwargs(placeholders, c).value[placeholders[i]])
  {
    if i > 0 { KwargsValues(placeholders[1..], c[1..], i - 1); }
  }

  // ---------- The whole collection ----------

  function KindOf(name: string, placeholders: seq<string>): Kind {
    Kind(name, placeholders, NormalizedName(name),
         seq(|placeholders|, i requires 0 <= i < |placeholders| => ParentName(placeholders[i])))
  }

  function RowOf(a: Answer): seq<Obj> { if a.Objects? then a.objs else [] }

  /** What listing each of the direct kinds gives. */
  function DirectAnswers(client: Client, project: string, names: seq<string>): seq<Answer> {
    seq(|names|, i requires 0 <= i < |names| => ListingOf(client, project, KindOf(names[i], []), []))
  }

  /** The first n answers by kind; one that fails counts as an empty one. */
  function TableOf(keys: seq<string>, answers: seq<Answer>, n: nat): Table<Obj>
    requires n <= |keys| == |answers|
  {
    if n == 0 then map[] else TableOf(keys, answers, n - 1)[keys[n-1] := RowOf(answers[n-1])]
  }

  /** The normalised names of the kinds. */
  function KeysOf(names: seq<string>): (keys: seq<string>)
    ensures |keys| == |names|
  {
    seq(|names|, i requires 0 <= i < |names| => KindOf(names[i], []).key)
  }

  /** The kinds whose listing fails, of the first n. */
  function ErrorsOf(names: seq<string>, answers: seq<Answer>, n: nat): seq<string>
    requires n <= |names| == |answers|
  {
    if n == 0 then []
    else ErrorsOf(names, answers, n - 1) + (if answers[n-1].Failed? then [names[n-1]] else [])
  }

  function DirectTable(client: Client, project: string, names: seq<string>): Table<Obj> {
    TableOf(KeysOf(names), DirectAnswers(client, project, names), |names|)
  }

  lemma {:induction false} ErrorsGrow(names: seq<string>, answers: seq<Answer>, n: nat, m: nat)
    requires n <= m <= |names| == |answers| && ErrorsOf(names, answers, n) != []
    ensures ErrorsOf(names, answers, m) != []
  {
    if n < m { ErrorsGrow(names, answers, n, m - 1); }
  }

  /** The loop over the direct specs. In strict mode the first failure ends it. */
  method ListDirect(client: Client, project: string, names: seq<string>, strict: bool)
    returns (table: Table<Obj>, errors: seq<string>, raised: bool)
    ensures var failed := ErrorsOf(names, DirectAnswers(client, project, names), |names|);
            && (raised <==> strict && failed != [])
            && (!raised ==> table == DirectTable(client, project, names) && errors == failed)
  {
    ghost var answers := DirectAnswers(client, project, names);
    table, errors, raised := ListEach(client, project, names, strict, KeysOf(names), answers);
  }

  predicate IsAnswer(client: Client, project: string, name: string, key: string, answer: Answer) {
    key == KindOf(name, []).key && answer == ListingOf(client, project, KindOf(name, []), [])
  }

  predicate AreAnswers(client: Client, project: string, names: seq<string>, keys: seq<string>, answers: seq<Answer>) {
    |answers| == |names| == |keys|
    && forall i {:trigger IsAnswer(client, project, names[i], keys[i], answers[i])} ::
         0 <= i < |names| ==> IsAnswer(client, project, names[i], keys[i], answers[i])
  }

  method ListEach(client: Client, project: string, names: seq<string>, strict: bool, ghost keys: seq<string>,
                  ghost answers: seq<Answer>)
    returns (table: Table<Obj>, errors: seq<string>, raised: bool)
    requires AreAnswers(client, project, names, keys, answers)
    ensures raised <==> strict && ErrorsOf(names, answers, |names|) != []
    ensures !raised ==> table == TableOf(keys, answers, |names|) && errors == ErrorsOf(names, answers, |names|)
  {
    table, errors, raised := map[], [], false;
    var n := 0;
    while n < |names| && !raised
      invariant DirectSoFar(names, keys, answers, n, table, errors)
      invariant raised <==> strict && errors != []
      decreases |names| - n
    {
      table, errors := ListOne(client, project, names, n, table, errors, keys, answers);
      raised := strict && errors != [];
      n := n + 1;
    }
    if raised { ErrorsGrow(names, answers, n, |names|); }
  }

  ghost predicate DirectSoFar(names: seq<string>, keys: seq<string>, answers: seq<Answer>, n: nat, table: Table<Obj>,
                              errors: seq<string>)
  {
    && n <= |names| == |answers| == |keys|
    && table == TableOf(keys, answers, n) && errors == ErrorsOf(names, answers, n)
  }

  /** One turn of the loop. */
  method ListOne(client: Client, project: string, names: seq<string>, n: nat, table: Table<Obj>, errors: seq<string>,
                 ghost keys: seq<string>, ghost answers: seq<Answer>)
    returns (table': Table<Obj>, errors': seq<string>)
    requires n < |names| && DirectSoFar(names, keys, answers, n, table, errors)
    requires AreAnswers(client, project, names, keys, answers)
    ensures DirectSoFar(names, keys, answers, n + 1, table', errors')
  {
    assert IsAnswer(client, project, names[n], keys[n], answers[n]);
    var a := ListSpec(client, project, KindOf(names[n], []), []);
    table', errors' := table[KindOf(names[n], []).key := RowOf(a)], if a.Failed? then errors + [names[n]] else errors;
  }

  function ListerOf(client: Client, project: string): Lister<Obj> {
    (k: Kind, parents: seq<seq<Obj>>) => ListingOf(client, project, k, parents)
  }

  /** No listed object belongs to another project. */
  predicate AllOwned(t: Table<Obj>, project: string) {
    forall k, o :: k in t && o in t[k] ==> OfProject(o, project)
  }

  lemma ListingIsOwned(client: Client, project: string, k: Kind, parents: seq<seq<Obj>>, o: Obj)
    requires o in RowOf(ListingOf(client, project, k, parents))
    ensures OfProject(o, project)
  {
    OwnerDecides(o, project);
    var combos, extra := Product(parents), ProjectFilter(client, project, k.name);
    var requests := Requests(k.placeholders, extra, combos);
    assert o in OwnedBy(Answers(client, k.name, extra, requests, |requests|).objs, project);
  }

  lemma DirectIsOwned(client: Client, project: string, names: seq<string>)
    ensures AllOwned(DirectTable(client, project, names), project)
  {
    var answers := DirectAnswers(client, project, names);
    forall i, o | 0 <= i < |names| && o in RowOf(answers[i]) ensures OfProject(o, project) {
      ListingIsOwned(client, project, KindOf(names[i], []), [], o);
    }
    TableIsOwned(KeysOf(names), answers, |names|, project);
  }

  lemma {:induction false} TableIsOwned(keys: seq<string>, answers: seq<Answer>, n: nat, project: string)
    requires n <= |keys| == |answers|
    requires forall i, o :: 0 <= i < |keys| && o in RowOf(answers[i]) ==> OfProject(o, project)
    ensures AllOwned(TableOf(keys, answers, n), project)
  {
    if n > 0 {
      TableIsOwned(keys, answers, n - 1, project);
      OwnedRow(TableOf(keys, answers, n - 1), keys[n-1], RowOf(answers[n-1]), project);
    }
  }

  lemma OwnedRow(t: Table<Obj>, key: string, row: seq<Obj>, project: string)
    requires AllOwned(t, project) && forall o :: o in row ==> OfProject(o, project)
    ensures AllOwned(t[key := row], project)
  {
  }

  /** Filtering direct listings leaves no object of another project. */
  lemma FilteredIsOwned(t: Table<Obj>, u: Table<Obj>, project: string)
    requires AllOwned(t, project) && forall k, o :: k in u && o in u[k] ==> k in t && o in t[k]
    ensures AllOwned(u, project)
  {
  }

  /** Every object listed directly or at any stage below has no owner or the requested project as owner. */
  lemma EveryListedIsOwned(client: Client, project: string, names: seq<string>, direct: Table<Obj>, kinds: set<Kind>,
                           n: nat)
    requires Registry(direct, kinds)
    requires var t := DirectTable(client, project, names);
             forall k, o :: k in direct && o in direct[k] ==> k in t && o in t[k]
    ensures AllOwned(Stage(ListerOf(client, project), direct, kinds, n), project)
  {
    DirectIsOwned(client, project, names);
    FilteredIsOwned(DirectTable(client, project, names), direct, project);
    StageIsOwned(client, project, direct, kinds, n);
  }

  lemma StageIsOwned(client: Client, project: string, direct: Table<Obj>, kinds: set<Kind>, n: nat)
    requires Registry(direct, kinds) && AllOwned(direct, project)
    ensures AllOwned(Stage(ListerOf(client, project), direct, kinds, n), project)
  {
    var owned, list := (o: Obj) => OfProject(o, project), ListerOf(client, project);
    forall k, parents, o | o in RowOf(list(k, parents)) ensures owned(o) {
      ListingIsOwned(client, project, k, parents, o);
    }
    StageAll(list, direct, kinds, n, owned);
    assert forall o :: owned(o) <==> OfProject(o, project);
  }

  predicate AllGood(t: Table<Obj>, good: Obj -> bool) { forall k, o :: k in t && o in t[k] ==> good(o) }

  /** What holds of all direct objects and of all that can be listed holds of all in any stage. */
  lemma {:induction false} StageAll(list: Lister<Obj>, direct: Table<Obj>, kinds: set<Kind>, n: nat, good: Obj -> bool)
    requires Registry(direct, kinds) && AllGood(direct, good)
    requires forall k, parents, o :: o in RowOf(list(k, parents)) ==> good(o)
    ensures AllGood(Stage(list, direct, kinds, n), good)
  {
    if n > 0 {
      StageAll(list, direct, kinds, n - 1, good);
      var before := Stage(list, direct, kinds, n - 1);
      var t := Stage(list, direct, kinds, n);
      forall key, o | key in t && o in t[key] ensures good(o) {
        if key in before {
          assert o in before[key];
        } else {
          var k :| k in kinds && k.key == key && Ready(k, before) && t[key] == Row(list, k, before);
          var parents := Parents(k, before);
          assert o in RowOf(list(k, parents));
        }
      }
    }
  }
}
