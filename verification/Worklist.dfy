// The nested worklist of a project inventory (list-project-resources.py, BuiltinSDKProvider.collect):
// a kind of resource is listed once all its parent kinds have objects.

module Worklist {

  /** A kind of resource: its name and the placeholders of its URL, with the normalised name of the kind
      and of the parent kind behind each placeholder. */
  datatype Kind = Kind(name: string, placeholders: seq<string>, key: string, parents: seq<string>)

  /** One listing: objects, a resource type this cloud does not have, or an API error. */
  datatype Listing<T> = Objects(objs: seq<T>) | Missing | Failed

  /** What listing a kind below these parent objects gives, fixed during one collection. */
  type Lister<!T> = (Kind, seq<seq<T>>) -> Listing<T>

  type Table<T> = map<string, seq<T>>

  predicate Ready<T(==)>(k: Kind, t: Table<T>) {
    forall i :: 0 <= i < |k.parents| ==> k.parents[i] in t && t[k.parents[i]] != []
  }

  function Parents<T(==)>(k: Kind, t: Table<T>): seq<seq<T>>
    requires Ready(k, t)
  {
    seq(|k.parents|, i requires 0 <= i < |k.parents| => t[k.parents[i]])
  }

  /** In best-effort mode a listing that fails counts as an empty one. */
  function Row<T(==)>(list: Lister<T>, k: Kind, t: Table<T>): seq<T>
    requires Ready(k, t)
  {
    var l := list(k, Parents(k, t));
    if l.Objects? then l.objs else []
  }

  predicate Fails<T(==)>(list: Lister<T>, k: Kind, t: Table<T>)
    requires Ready(k, t)
  {
    list(k, Parents(k, t)).Failed?
  }

  // ---------- The reference: least fixed point by stages ----------

  /** Kinds have pairwise distinct normalised names, none of them listed directly. */
  ghost predicate Registry<T>(direct: Table<T>, kinds: set<Kind>) {
    && (forall k :: k in kinds ==> k.key !in direct)
    && (forall a, b :: a in kinds && b in kinds && a.key == b.key ==> a == b)
  }

  /** Stage 0 is what was listed directly; each stage lists every kind whose parents are non-empty. */
  ghost function Stage<T>(list: Lister<T>, direct: Table<T>, kinds: set<Kind>, n: nat): Table<T>
    requires Registry(direct, kinds)
  {
    if n == 0 then direct else NextStage(list, kinds, direct, Stage(list, direct, kinds, n - 1))
  }

  ghost function NextStage<T>(list: Lister<T>, kinds: set<Kind>, direct: Table<T>, t: Table<T>): Table<T>
    requires Registry(direct, kinds)
  {
    t + map k | k in kinds && k.key !in t && Ready(k, t) :: k.key := Row(list, k, t)
  }

  ghost predicate Below<T>(t: Table<T>, u: Table<T>) { forall k :: k in t ==> k in u && u[k] == t[k] }

  lemma RowStable<T>(list: Lister<T>, k: Kind, t: Table<T>, u: Table<T>)
    requires Below(t, u) && Ready(k, t)
    ensures Ready(k, u) && Row(list, k, u) == Row(list, k, t) && (Fails(list, k, u) <==> Fails(list, k, t))
  {
    assert Parents(k, u) == Parents(k, t);
  }

  lemma {:induction false} StageGrows<T>(list: Lister<T>, direct: Table<T>, kinds: set<Kind>, n: nat, m: nat)
    requires Registry(direct, kinds) && n <= m
    ensures Below(Stage(list, direct, kinds, n), Stage(list, direct, kinds, m))
    decreases m
  {
    if n < m { StageGrows(list, direct, kinds, n, m - 1); }
  }

  /** Every entry of a stage is the listing of its kind from that stage's own parents. */
  lemma {:induction false} StageEntry<T>(list: Lister<T>, direct: Table<T>, kinds: set<Kind>, n: nat, k: Kind)
    requires Registry(direct, kinds) && k in kinds && k.key in Stage(list, direct, kinds, n)
    ensures var t := Stage(list, direct, kinds, n);
            Ready(k, t) && t[k.key] == Row(list, k, t)
  {
    var before := Stage(list, direct, kinds, n - 1);
    StageGrows(list, direct, kinds, n - 1, n);
    if k.key in before { StageEntry(list, direct, kinds, n - 1, k); }
    RowStable(list, k, before, Stage(list, direct, kinds, n));
  }

  /** Listing goes no further from t: every kind that is ready has been listed, from t itself. */
  ghost predicate Closed<T>(list: Lister<T>, kinds: set<Kind>, t: Table<T>) {
    forall k :: k in kinds && Ready(k, t) ==> k.key in t && t[k.key] == Row(list, k, t)
  }

  /** Every stage lies below every closed table that holds what was listed directly. */
  lemma {:induction false} StageIsLeast<T>(list: Lister<T>, direct: Table<T>, kinds: set<Kind>, n: nat, u: Table<T>)
    requires Registry(direct, kinds) && Below(direct, u) && Closed(list, kinds, u)
    ensures Below(Stage(list, direct, kinds, n), u)
  {
    if n > 0 {
      var before := Stage(list, direct, kinds, n - 1);
      StageIsLeast(list, direct, kinds, n - 1, u);
      NextBelow(list, kinds, direct, before, u);
    }
  }

  lemma NextBelow<T>(list: Lister<T>, kinds: set<Kind>, direct: Table<T>, t: Table<T>, u: Table<T>)
    requires Registry(direct, kinds) && Below(t, u) && Closed(list, kinds, u)
    ensures Below(NextStage(list, kinds, direct, t), u)
  {
    forall k | k in kinds && k.key !in t && Ready(k, t) ensures k.key in u && u[k.key] == Row(list, k, t) {
      RowStable(list, k, t, u);
    }
  }

  /** A stage that leaves no unlisted kind ready is a fixed point, and closed. */
  lemma StageIsFixed<T>(list: Lister<T>, direct: Table<T>, kinds: set<Kind>, n: nat)
    requires Registry(direct, kinds)
    requires var t := Stage(list, direct, kinds, n);
             forall k :: k in kinds && k.key !in t ==> !Ready(k, t)
    ensures var t := Stage(list, direct, kinds, n);
            NextStage(list, kinds, direct, t) == t && Closed(list, kinds, t)
  {
    forall k | k in kinds && k.key in Stage(list, direct, kinds, n) { StageEntry(list, direct, kinds, n, k); }
  }

  // ---------- The loop ----------

  datatype Collected<T> =
    | Collected(table: Table<T>, pending: seq<Kind>, errors: seq<Kind>)
    | Raised(kind: Kind)

  function Elements<X>(s: seq<X>): set<X> { set x | x in s }

  /** t holds stage-n entries only, and every kind not open has been listed. */
  ghost predicate Covered<T>(list: Lister<T>, direct: Table<T>, kinds: set<Kind>, n: nat, t: Table<T>, open: set<Kind>)
  {
    && Registry(direct, kinds)
    && Below(direct, t) && Below(t, Stage(list, direct, kinds, n))
    && open <= kinds
    && (forall k :: k in kinds ==> (k in open <==> k.key !in t))
  }

  lemma InNextStage<T>(list: Lister<T>, direct: Table<T>, kinds: set<Kind>, n: nat, t: Table<T>, k: Kind)
    requires Registry(direct, kinds) && k in kinds && Below(t, Stage(list, direct, kinds, n)) && Ready(k, t)
    ensures var next := Stage(list, direct, kinds, n + 1);
            Below(t, next) && k.key in next && next[k.key] == Row(list, k, t)
  {
    var stage := Stage(list, direct, kinds, n);
    StageGrows(list, direct, kinds, n, n + 1);
    RowStable(list, k, t, stage);
    if k.key in stage { StageEntry(list, direct, kinds, n, k); }
  }

  /** Listing an open kind when its parents are there moves one stage on. */
  lemma ListOne<T>(list: Lister<T>, direct: Table<T>, kinds: set<Kind>, n: nat, t: Table<T>, open: set<Kind>, k: Kind)
    requires Covered(list, direct, kinds, n, t, open) && k in open && Ready(k, t)
    ensures Covered(list, direct, kinds, n + 1, t[k.key := Row(list, k, t)], open - {k})
  {
    InNextStage(list, direct, kinds, n, t, k);
    var t' := t[k.key := Row(list, k, t)];
    assert Below(direct, t');
    forall x | x in kinds ensures x in open - {k} <==> x.key !in t' { }
  }

  /** When no open kind is ready, the table holds every stage. */
  lemma {:induction false} ClosedHoldsStages<T>(list: Lister<T>, direct: Table<T>, kinds: set<Kind>, n: nat,
                                                t: Table<T>, open: set<Kind>, m: nat)
    requires Covered(list, direct, kinds, n, t, open)
    requires forall k :: k in open ==> !Ready(k, t)
    ensures Below(Stage(list, direct, kinds, m), t)
    decreases m
  {
    if m > 0 {
      ClosedHoldsStages(list, direct, kinds, n, t, open, m - 1);
      ClosedHoldsNext(list, direct, kinds, n, t, open, Stage(list, direct, kinds, m - 1));
    }
  }

  lemma ClosedHoldsNext<T>(list: Lister<T>, direct: Table<T>, kinds: set<Kind>, n: nat, t: Table<T>, open: set<Kind>,
                           before: Table<T>)
    requires Covered(list, direct, kinds, n, t, open) && forall x :: x in open ==> !Ready(x, t)
    requires Below(before, t)
    ensures Below(NextStage(list, kinds, direct, before), t)
  {
    forall k | k in kinds && k.key !in before && Ready(k, before)
      ensures k.key in t && t[k.key] == Row(list, k, before)
    {
      ClosedHolds(list, direct, kinds, n, t, open, before, k);
    }
  }

  lemma ClosedHolds<T>(list: Lister<T>, direct: Table<T>, kinds: set<Kind>, n: nat, t: Table<T>, open: set<Kind>,
                       before: Table<T>, k: Kind)
    requires Covered(list, direct, kinds, n, t, open) && forall x :: x in open ==> !Ready(x, t)
    requires k in kinds && Below(before, t) && Ready(k, before)
    ensures k.key in t && t[k.key] == Row(list, k, before)
  {
    RowStable(list, k, before, t);
    RowStable(list, k, t, Stage(list, direct, kinds, n));
    StageEntry(list, direct, kinds, n, k);
  }

  /** The errors recorded are those of the kinds listed so far. */
  ghost predicate Tally<T>(list: Lister<T>, kinds: set<Kind>, t: Table<T>, errors: seq<Kind>) {
    && (forall k :: k in kinds && k.key in t ==> Ready(k, t) && (k in errors <==> Fails(list, k, t)))
    && (forall k :: k in errors ==> k in kinds && k.key in t)
  }

  lemma TallyOne<T>(list: Lister<T>, direct: Table<T>, kinds: set<Kind>, t: Table<T>, k: Kind, errors: seq<Kind>)
    requires Registry(direct, kinds) && Tally(list, kinds, t, errors) && k in kinds && k.key !in t && Ready(k, t)
    ensures Tally(list, kinds, t[k.key := Row(list, k, t)], if Fails(list, k, t) then errors + [k] else errors)
  {
    var t' := t[k.key := Row(list, k, t)];
    assert Below(t, t') && k !in errors;
    RowStable(list, k, t, t');
    forall x | x in kinds && x.key in t' && x != k ensures Ready(x, t') && (x in errors <==> Fails(list, x, t')) {
      TallyKept(list, kinds, t, t', errors, x);
    }
  }

  lemma TallyKept<T>(list: Lister<T>, kinds: set<Kind>, t: Table<T>, t': Table<T>, errors: seq<Kind>, x: Kind)
    requires Tally(list, kinds, t, errors) && Below(t, t') && x in kinds && x.key in t
    ensures Ready(x, t') && (x in errors <==> Fails(list, x, t'))
  {
    RowStable(list, x, t, t');
  }

  // A run of the loop is the order in which it lists kinds.

  ghost function After<T>(list: Lister<T>, t: Table<T>, order: seq<Kind>): Table<T> {
    if order == [] then t
    else
      var before, k := After(list, t, order[..|order|-1]), order[|order|-1];
      if Ready(k, before) then before[k.key := Row(list, k, before)] else before
  }

  ghost function ErrorsIn<T>(list: Lister<T>, t: Table<T>, order: seq<Kind>): seq<Kind> {
    if order == [] then []
    else
      var before, k := After(list, t, order[..|order|-1]), order[|order|-1];
      ErrorsIn(list, t, order[..|order|-1]) + (if Ready(k, before) && Fails(list, k, before) then [k] else [])
  }

  /** Every kind is ready when it is listed, and none is listed twice. */
  ghost predicate Legal<T>(list: Lister<T>, t: Table<T>, order: seq<Kind>) {
    order != [] ==>
      var init, k := order[..|order|-1], order[|order|-1];
      Legal(list, t, init) && k !in init && Ready(k, After(list, t, init))
  }

  lemma OneMore<T>(list: Lister<T>, direct: Table<T>, order: seq<Kind>, k: Kind, t: Table<T>, errors: seq<Kind>)
    requires RunIs(list, direct, order, t, errors) && k !in order && Ready(k, t)
    ensures RunIs(list, direct, order + [k], t[k.key := Row(list, k, t)],
                  if Fails(list, k, t) then errors + [k] else errors)
  {
    assert (order + [k])[..|order|] == order;
  }

  lemma {:induction false} RunReaches<T>(list: Lister<T>, direct: Table<T>, kinds: set<Kind>, order: seq<Kind>)
    requires Registry(direct, kinds) && Legal(list, direct, order) && Elements(order) <= kinds
    ensures Covered(list, direct, kinds, |order|, After(list, direct, order), kinds - Elements(order))
    ensures Tally(list, kinds, After(list, direct, order), ErrorsIn(list, direct, order))
  {
    if order == [] {
    } else {
      var init, k := order[..|order|-1], order[|order|-1];
      assert order == init + [k];
      RunReaches(list, direct, kinds, init);
      var t, errors := After(list, direct, init), ErrorsIn(list, direct, init);
      ListOne(list, direct, kinds, |init|, t, kinds - Elements(init), k);
      TallyOne(list, direct, kinds, t, k, errors);
      assert kinds - Elements(init) - {k} == kinds - Elements(order);
    }
  }

  /** Lists one kind; a failure counts as no objects and is recorded. */
  method ListKind<T(==)>(list: Lister<T>, ghost direct: Table<T>, ghost order: seq<Kind>, table: Table<T>,
                         errors: seq<Kind>, k: Kind) returns (table': Table<T>, errors': seq<Kind>)
    requires RunIs(list, direct, order, table, errors) && k !in order && Ready(k, table)
    ensures RunIs(list, direct, order + [k], table', errors')
  {
    OneMore(list, direct, order, k, table, errors);
    var l := list(k, Parents(k, table));
    errors' := if l.Failed? then errors + [k] else errors;
    table' := table[k.key := if l.Objects? then l.objs else []];
  }

  /** A pending kind is listed if it is ready. */
  method Visit<T(==)>(list: Lister<T>, ghost direct: Table<T>, ghost order: seq<Kind>, table: Table<T>,
                      errors: seq<Kind>, k: Kind)
    returns (listed: bool, table': Table<T>, errors': seq<Kind>, ghost order': seq<Kind>)
    requires RunIs(list, direct, order, table, errors) && k !in order
    ensures RunIs(list, direct, order', table', errors') && order' == (if listed then order + [k] else order)
    ensures listed <==> Ready(k, table)
    ensures !listed ==> table' == table && errors' == errors
  {
    listed, table', errors', order' := Ready(k, table), table, errors, order;
    if listed {
      table', errors' := ListKind(list, direct, order, table, errors, k);
      order' := order + [k];
    }
  }

  /** One sweep over the pending kinds: list those that are ready, keep the others. In strict mode the
      first failure stops it. */
  method Sweep<T(==)>(list: Lister<T>, ghost direct: Table<T>, ghost order: seq<Kind>, table: Table<T>,
                      pending: seq<Kind>, errors: seq<Kind>, strict: bool)
    returns (table': Table<T>, remaining: seq<Kind>, errors': seq<Kind>, ghost order': seq<Kind>)
    requires RunIs(list, direct, order, table, errors)
    requires Distinct(pending) && Elements(pending) !! Elements(order) && (strict ==> errors == [])
    ensures RunIs(list, direct, order', table', errors')
    ensures Elements(order') <= Elements(order) + Elements(pending)
    ensures !(strict && errors' != []) ==>
            && Distinct(remaining) && Elements(remaining) !! Elements(order')
            && Elements(order') + Elements(remaining) == Elements(order) + Elements(pending)
            && (|remaining| == |pending| ==> remaining == pending && NoneReady(pending, table'))
    ensures |remaining| <= |pending|
  {
    table', remaining, errors', order' := table, [], errors, order;
    ghost var open, total := Elements(pending), Elements(order) + Elements(pending);
    assert OpenSet([], pending, 0) == open;
    var i := 0;
    while i < |pending| && !(strict && errors' != [])
      invariant i <= |pending| && Swept(remaining, pending, i) && open == OpenSet(remaining, pending, i)
      invariant RunIs(list, direct, order', table', errors')
      invariant Parted(order', open, total)
      invariant |remaining| == i ==> table' == table && NoneReady(remaining, table)
    {
      var k := pending[i];
      MoveOne(remaining, pending, i);
      KeepParted(order', open, total, k);
      var listed;
      listed, table', errors', order' := Visit(list, direct, order', table', errors', k);
      if listed { open := open - {k}; } else { remaining := remaining + [k]; }
      i := i + 1;
    }
    if i == |pending| { SweptAll(remaining, pending); }
  }

  ghost predicate NoneReady<T>(ks: seq<Kind>, t: Table<T>) {
    forall j :: 0 <= j < |ks| ==> !Ready(ks[j], t)
  }

  ghost predicate RunIs<T>(list: Lister<T>, direct: Table<T>, order: seq<Kind>, table: Table<T>, errors: seq<Kind>) {
    Legal(list, direct, order) && table == After(list, direct, order) && errors == ErrorsIn(list, direct, order)
  }

  /** total is split into the kinds listed so far and the open ones. */
  ghost predicate Parted(order: seq<Kind>, open: set<Kind>, total: set<Kind>) {
    Elements(order) !! open && Elements(order) + open == total
  }

  lemma KeepParted(order: seq<Kind>, open: set<Kind>, total: set<Kind>, k: Kind)
    requires Parted(order, open, total) && k in open
    ensures k !in order && Parted(order + [k], open - {k}, total)
  {
    assert Elements(order + [k]) == Elements(order) + {k};
    assert k !in Elements(order);
  }

  /** remaining holds some of the first i pending kinds, in order: all of them if it is that long. */
  predicate Swept(remaining: seq<Kind>, pending: seq<Kind>, i: nat)
    requires i <= |pending|
  {
    && |remaining| <= i && Distinct(remaining) && Elements(remaining) <= Elements(pending[..i])
    && (|remaining| == i ==> remaining == pending[..i])
  }

  lemma SweptAll(remaining: seq<Kind>, pending: seq<Kind>)
    requires Swept(remaining, pending, |pending|)
    ensures OpenSet(remaining, pending, |pending|) == Elements(remaining)
    ensures |remaining| == |pending| ==> remaining == pending
    ensures |remaining| <= |pending| && Distinct(remaining)
  {
    assert pending[..|pending|] == pending;
  }

  lemma SplitAt(s: seq<Kind>, i: nat)
    requires Distinct(s) && i < |s|
    ensures Elements(s[i..]) == {s[i]} + Elements(s[i+1..]) && s[i] !in s[i+1..] && s[i] !in s[..i]
    ensures s[..i+1] == s[..i] + [s[i]]
  {
    assert s[i..] == [s[i]] + s[i+1..];
  }

  /** The kinds still open when entry i of the sweep is next. */
  function OpenSet(remaining: seq<Kind>, pending: seq<Kind>, i: nat): set<Kind>
    requires i <= |pending|
  {
    Elements(remaining) + Elements(pending[i..])
  }

  lemma MoveOne(remaining: seq<Kind>, pending: seq<Kind>, i: nat)
    requires Distinct(pending) && i < |pending| && Swept(remaining, pending, i)
    ensures OpenSet(remaining, pending, i) - {pending[i]} == OpenSet(remaining, pending, i + 1)
    ensures OpenSet(remaining, pending, i) == OpenSet(remaining + [pending[i]], pending, i + 1)
    ensures pending[i] in OpenSet(remaining, pending, i)
    ensures Swept(remaining, pending, i + 1) && Swept(remaining + [pending[i]], pending, i + 1)
  {
    SplitAt(pending, i);
    assert pending[i] !in Elements(pending[..i]);
    assert Elements(remaining + [pending[i]]) == Elements(remaining) + {pending[i]};
  }

  /** The nested loop of collect. In best-effort mode it returns the least fixed point and leaves
      pending exactly the kinds it does not list, each of which lacks a parent with objects; in strict mode
      it raises exactly when the listing of some kind of the fixed point fails. */
  method Collect<T(==)>(list: Lister<T>, direct: Table<T>, specs: seq<Kind>, strict: bool) returns (r: Collected<T>)
    requires Registry(direct, Elements(specs)) && Distinct(specs)
    ensures r.Collected? ==> r.table == Stage(list, direct, Elements(specs), |specs|)
    ensures r.Collected? ==> NextStage(list, Elements(specs), direct, r.table) == r.table
    ensures r.Collected? ==> Closed(list, Elements(specs), r.table)
    ensures r.Collected? ==> forall k :: k in r.pending <==> k in specs && k.key !in r.table
    ensures r.Collected? ==> forall k :: k in r.pending ==> !Ready(k, r.table)
    ensures r.Collected? ==> Tally(list, Elements(specs), r.table, r.errors)
    // Read off the table: what is pending lacks a parent with objects, and what is listed has them all.
    ensures r.Collected? ==> forall k :: k in specs ==>
              if k in r.pending then LacksParent(k, r.table) else ListedAs(list, k, r.table, k in r.errors)
    ensures r.Collected? ==> forall k :: k in r.errors ==> k in specs
    ensures r.Collected? && strict ==> r.errors == []
    ensures r.Raised? ==> strict && r.kind in specs
                          && r.kind.key in Stage(list, direct, Elements(specs), |specs|)
                          && Ready(r.kind, Stage(list, direct, Elements(specs), |specs|))
                          && Fails(list, r.kind, Stage(list, direct, Elements(specs), |specs|))
  {
    ghost var kinds := Elements(specs);
    ghost var order: seq<Kind> := [];
    var table, pending, errors: seq<Kind> := direct, specs, [];
    var progressed := true;
    while pending != [] && progressed && !(strict && errors != [])
      invariant RunIs(list, direct, order, table, errors)
      invariant Elements(order) <= kinds
      invariant !(strict && errors != []) ==>
                Distinct(pending) && Elements(pending) == kinds - Elements(order)
                && (!progressed ==> NoneReady(pending, table))
      decreases |pending|, progressed, strict && errors == []
    {
      var remaining;
      table, remaining, errors, order := Sweep(list, direct, order, table, pending, errors, strict);
      progressed := |remaining| < |pending|;
      pending := remaining;
    }
    if strict && errors != [] {
      RunFailed(list, direct, specs, order, errors[0]);
      r := Raised(errors[0]);
    } else {
      RunComplete(list, direct, specs, order, pending);
      r := Collected(table, pending, errors);
      ReadOff(list, direct, specs, table, pending, errors);
    }
  }

  /** Some parent kind is not listed, or listed with no object. */
  predicate LacksParent<T(==)>(k: Kind, t: Table<T>) {
    exists i :: 0 <= i < |k.parents| && (k.parents[i] !in t || t[k.parents[i]] == [])
  }

  /** The objects listed under the kind's parents. */
  function ParentObjects<T>(k: Kind, t: Table<T>): seq<seq<T>> {
    seq(|k.parents|, i requires 0 <= i < |k.parents| => if k.parents[i] in t then t[k.parents[i]] else [])
  }

  /** The kind was listed below the objects of its parents: it has the objects of the answer, or none when the
      resource type is missing or the listing failed, and only the last is an error. */
  predicate ListedAs<T(==)>(list: Lister<T>, k: Kind, t: Table<T>, error: bool) {
    && !LacksParent(k, t) && k.key in t
    && match list(k, ParentObjects(k, t))
       case Objects(objs) => t[k.key] == objs && !error
       case Missing => t[k.key] == [] && !error
       case Failed => t[k.key] == [] && error
  }

  lemma ReadOff<T>(list: Lister<T>, direct: Table<T>, specs: seq<Kind>, t: Table<T>, pending: seq<Kind>,
                   errors: seq<Kind>)
    requires Registry(direct, Elements(specs)) && t == Stage(list, direct, Elements(specs), |specs|)
    requires forall k :: k in pending <==> k in specs && k.key !in t
    requires forall k :: k in pending ==> !Ready(k, t)
    requires Tally(list, Elements(specs), t, errors)
    ensures forall k :: k in specs ==>
              if k in pending then LacksParent(k, t) else ListedAs(list, k, t, k in errors)
  {
    forall k | k in specs && k !in pending ensures ListedAs(list, k, t, k in errors) {
      assert k in Elements(specs);
      StageEntry(list, direct, Elements(specs), |specs|, k);
      assert ParentObjects(k, t) == Parents(k, t);
    }
    forall k | k in pending ensures LacksParent(k, t) {
      var i :| 0 <= i < |k.parents| && !(k.parents[i] in t && t[k.parents[i]] != []);
    }
  }

  /** A run that leaves no open kind ready has reached the least fixed point. */
  lemma RunComplete<T>(list: Lister<T>, direct: Table<T>, specs: seq<Kind>, order: seq<Kind>, pending: seq<Kind>)
    requires Registry(direct, Elements(specs)) && Distinct(specs)
    requires Legal(list, direct, order) && Elements(order) <= Elements(specs)
    requires Elements(pending) == Elements(specs) - Elements(order)
    requires NoneReady(pending, After(list, direct, order))
    ensures After(list, direct, order) == Stage(list, direct, Elements(specs), |specs|)
    ensures forall k :: k in pending <==> k in specs && k.key !in After(list, direct, order)
    ensures forall k :: k in pending ==> !Ready(k, After(list, direct, order))
    ensures NextStage(list, Elements(specs), direct, After(list, direct, order)) == After(list, direct, order)
    ensures Closed(list, Elements(specs), After(list, direct, order))
    ensures Tally(list, Elements(specs), After(list, direct, order), ErrorsIn(list, direct, order))
  {
    var kinds, t := Elements(specs), After(list, direct, order);
    RunReaches(list, direct, kinds, order);
    RunLength(list, direct, order, specs);
    forall k | k in kinds - Elements(order) ensures !Ready(k, t) { assert k in Elements(pending); }
    ClosedHoldsStages(list, direct, kinds, |order|, t, kinds - Elements(order), |specs|);
    StageGrows(list, direct, kinds, |order|, |specs|);
    SameTable(t, Stage(list, direct, kinds, |specs|));
    forall k ensures k in pending <==> k in specs && k.key !in t {
      assert k in pending <==> k in Elements(pending);
      assert k in specs <==> k in kinds;
    }
    StageIsFixed(list, direct, kinds, |specs|);
  }

  lemma RunFailed<T>(list: Lister<T>, direct: Table<T>, specs: seq<Kind>, order: seq<Kind>, k: Kind)
    requires Registry(direct, Elements(specs)) && Distinct(specs)
    requires Legal(list, direct, order) && Elements(order) <= Elements(specs)
    requires k in ErrorsIn(list, direct, order)
    ensures var final := Stage(list, direct, Elements(specs), |specs|);
            k in specs && k.key in final && Ready(k, final) && Fails(list, k, final)
  {
    RunReaches(list, direct, Elements(specs), order);
    RunLength(list, direct, order, specs);
    ReachedFailure(list, direct, Elements(specs), |order|, After(list, direct, order), ErrorsIn(list, direct, order),
      k, |specs|);
  }

  lemma RunLength<T>(list: Lister<T>, t: Table<T>, order: seq<Kind>, specs: seq<Kind>)
    requires Legal(list, t, order) && Elements(order) <= Elements(specs) && Distinct(specs)
    ensures |order| <= |specs|
  {
    LegalDistinct(list, t, order);
    SizeOfElements(order);
    SizeOfElements(specs);
    Smaller(Elements(order), Elements(specs));
  }

  lemma {:induction false} LegalDistinct<T>(list: Lister<T>, t: Table<T>, order: seq<Kind>)
    requires Legal(list, t, order)
    ensures Distinct(order)
  {
    if order != [] {
      var init := order[..|order|-1];
      LegalDistinct(list, t, init);
      assert order[|order|-1] !in init;
      assert order == init + [order[|order|-1]];
    }
  }

  lemma {:induction false} Smaller(a: set<Kind>, b: set<Kind>)
    requires a <= b
    ensures |a| <= |b|
  {
    if a != {} {
      var x :| x in a;
      Smaller(a - {x}, b - {x});
    }
  }

  /** A failure met on the way is a failure at the fixed point. */
  lemma ReachedFailure<T>(list: Lister<T>, direct: Table<T>, kinds: set<Kind>, n: nat, t: Table<T>,
                          errors: seq<Kind>, k: Kind, m: nat)
    requires Registry(direct, kinds) && n <= m && k in errors
    requires Below(t, Stage(list, direct, kinds, n)) && Tally(list, kinds, t, errors)
    ensures var final := Stage(list, direct, kinds, m);
            k in kinds && k.key in final && Ready(k, final) && Fails(list, k, final)
  {
    StageGrows(list, direct, kinds, n, m);
    RowStable(list, k, t, Stage(list, direct, kinds, m));
  }

  lemma SameTable<T>(t: Table<T>, u: Table<T>)
    requires Below(t, u) && Below(u, t)
    ensures t == u
  {
    assert t.Keys == u.Keys;
  }

  /** The order in which kinds are tried does not show in the result. */
  lemma OrderDoesNotMatter<T>(list: Lister<T>, direct: Table<T>, specs: seq<Kind>, specs': seq<Kind>)
    requires Registry(direct, Elements(specs)) && Distinct(specs) && Distinct(specs')
    requires Elements(specs) == Elements(specs')
    ensures Stage(list, direct, Elements(specs), |specs|) == Stage(list, direct, Elements(specs'), |specs'|)
  {
    SizeOfElements(specs);
    SizeOfElements(specs');
  }

  lemma {:induction false} SizeOfElements(s: seq<Kind>)
    requires Distinct(s)
    ensures |Elements(s)| == |s|
  {
    if s != [] {
      SizeOfElements(s[1..]);
      assert Elements(s) == Elements(s[1..]) + {s[0]};
    }
  }

  predicate Distinct(s: seq<Kind>) { forall i, j :: 0 <= i < j < |s| ==> s[i] != s[j] }
}
