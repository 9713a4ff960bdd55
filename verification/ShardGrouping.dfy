// Grouping of the members of a grow request into new shards
// (controller/api.py, MongoDbCluster._group_shard_instances).

module ShardGrouping {

  // A missing key and an empty string are both falsy for the controller, so "" stands for both.
  datatype Item = Item(name: string, relatedTo: string)

  datatype Outcome =
    | Groups(groups: seq<seq<Item>>)
    | NameInTwoShards
    | UnnamedMember

  predicate Unlabelled(it: Item) { it.name == "" && it.relatedTo == "" }

  function Key(it: Item): string { if it.relatedTo != "" then it.relatedTo else it.name }

  function Labels(it: Item): set<string> {
    if Unlabelled(it) then {} else if it.name == "" then {Key(it)} else {Key(it), it.name}
  }

  // ---------- The reference: connected components of the label graph ----------

  predicate Adjacent(items: seq<Item>, i: nat, j: nat)
    requires i < |items| && j < |items|
  {
    exists l :: l in Labels(items[i]) && l in Labels(items[j])
  }

  /** p is a walk among the first n items, each sharing a label with the next. */
  ghost predicate Walk(items: seq<Item>, n: nat, p: seq<nat>)
    requires n <= |items|
  {
    && |p| > 0
    && (forall k :: 0 <= k < |p| ==> p[k] < n)
    && (forall k :: 0 < k < |p| ==> Adjacent(items, p[k-1], p[k]))
  }

  /** Transitive closure of label sharing among the first n items. */
  ghost predicate Linked(items: seq<Item>, n: nat, i: nat, j: nat)
    requires n <= |items|
  {
    exists p :: Walk(items, n, p) && p[0] == i && p[|p|-1] == j
  }

  lemma {:induction false} LinkedTransitive(items: seq<Item>, n: nat, i: nat, j: nat, k: nat)
    requires n <= |items| && Linked(items, n, i, j) && Linked(items, n, j, k)
    ensures Linked(items, n, i, k)
  {
    var p :| Walk(items, n, p) && p[0] == i && p[|p|-1] == j;
    var q :| Walk(items, n, q) && q[0] == j && q[|q|-1] == k;
    var w := p + q[1..];
    forall x | 0 < x < |w| ensures Adjacent(items, w[x-1], w[x]) {
      if x >= |p| {
        assert w[x] == q[x - |p| + 1];
        assert w[x-1] == q[x - |p|];
      }
    }
    assert Walk(items, n, w) && w[0] == i && w[|w|-1] == k;
  }

  lemma {:induction false} LinkedSymmetric(items: seq<Item>, n: nat, i: nat, j: nat)
    requires n <= |items| && Linked(items, n, i, j)
    ensures Linked(items, n, j, i)
  {
    var p :| Walk(items, n, p) && p[0] == i && p[|p|-1] == j;
    var w := seq(|p|, k requires 0 <= k < |p| => p[|p| - 1 - k]);
    forall x | 0 < x < |w| ensures Adjacent(items, w[x-1], w[x]) {
      assert Adjacent(items, p[|p| - 1 - x], p[|p| - x]);
    }
    assert Walk(items, n, w) && w[0] == j && w[|w|-1] == i;
  }

  lemma LinkedStep(items: seq<Item>, n: nat, i: nat, j: nat)
    requires n <= |items| && i < n && j < n && (i == j || Adjacent(items, i, j))
    ensures Linked(items, n, i, j)
  {
    var p := if i == j then [i] else [i, j];
    assert Walk(items, n, p) && p[0] == i && p[|p|-1] == j;
  }

  lemma LinkedMonotone(items: seq<Item>, n: nat, m: nat, i: nat, j: nat)
    requires n <= m <= |items| && Linked(items, n, i, j)
    ensures Linked(items, m, i, j)
  {
    var p :| Walk(items, n, p) && p[0] == i && p[|p|-1] == j;
    assert Walk(items, m, p);
  }

  // ---------- What an accepted answer is ----------

  /** Those of the first n items whose owner is g, in request order. */
  function Pick(items: seq<Item>, owner: seq<int>, g: int, n: nat): seq<Item>
    requires n <= |items| && n <= |owner|
  {
    if n == 0 then []
    else Pick(items, owner, g, n - 1) + (if owner[n-1] == g then [items[n-1]] else [])
  }

  /** Owners are numbered in the order in which their first item appears. */
  ghost predicate FirstSeenNumbering(owner: seq<int>) {
    forall i :: 0 <= i < |owner| ==>
      owner[i] >= 0 && forall g :: 0 <= g < owner[i] ==> g in owner[..i]
  }

  /** groups lists exactly the connected components, each and all in request order. */
  ghost predicate ComponentGrouping(items: seq<Item>, groups: seq<seq<Item>>, owner: seq<int>) {
    && |owner| == |items|
    && FirstSeenNumbering(owner)
    && (forall i :: 0 <= i < |owner| ==> owner[i] < |groups|)
    && (forall g :: 0 <= g < |groups| ==> g in owner && groups[g] == Pick(items, owner, g, |items|))
    && (forall i, j :: 0 <= i < |items| && 0 <= j < |items| ==>
         (owner[i] == owner[j] <==> Linked(items, |items|, i, j)))
  }

  /** Item k carries a name already used as a label, but its own key is not (yet) tied to that label. */
  ghost predicate Ties(items: seq<Item>, k: nat)
    requires k < |items|
  {
    && items[k].name != "" && Key(items[k]) != items[k].name
    && (exists j :: 0 <= j < k && items[k].name in Labels(items[j]))
    && !(exists i, j :: 0 <= i < k && 0 <= j < k && Key(items[k]) in Labels(items[i])
           && items[k].name in Labels(items[j]) && Linked(items, k, i, j))
  }

  ghost predicate SomeTies(items: seq<Item>, n: nat)
    requires n <= |items|
  {
    exists k :: 0 <= k < n && Ties(items, k)
  }

  // ---------- The loop ----------

  /** Owner -1 marks the unlabelled items. */
  ghost predicate Numbered(items: seq<Item>, n: nat, m: nat, owner: seq<int>) {
    && n <= |items| && |owner| == n
    && (forall i :: 0 <= i < n ==> -1 <= owner[i] < m && (owner[i] == -1 <==> Unlabelled(items[i])))
  }

  ghost predicate Pointing(items: seq<Item>, n: nat, names: map<string, nat>, owner: seq<int>) {
    && n <= |items| && |owner| == n
    && (forall i, l :: 0 <= i < n && l in Labels(items[i]) ==> l in names && names[l] == owner[i])
  }

  ghost predicate Backed(items: seq<Item>, n: nat, m: nat, names: map<string, nat>) {
    && n <= |items|
    && (forall l :: l in names ==> names[l] < m && exists i :: 0 <= i < n && l in Labels(items[i]))
  }

  /** The label table after n items: every label of item i, and nothing else, points at the group of i. */
  ghost predicate LabelTable(items: seq<Item>, n: nat, m: nat, names: map<string, nat>, owner: seq<int>) {
    Numbered(items, n, m, owner) && Pointing(items, n, names, owner) && Backed(items, n, m, names)
  }

  ghost predicate OwnersLinked(items: seq<Item>, n: nat, owner: seq<int>) {
    && n <= |items| && |owner| == n
    && (forall i, j :: 0 <= i < n && 0 <= j < n && owner[i] == owner[j] >= 0 ==> Linked(items, n, i, j))
  }

  ghost predicate Contents(items: seq<Item>, n: nat, groups: seq<seq<Item>>, owner: seq<int>) {
    && n <= |items| && |owner| == n
    && (forall g :: 0 <= g < |groups| ==> g in owner && groups[g] == Pick(items, owner, g, n))
  }

  /** Every group numbered below a labelled item's group was already in use before that item. */
  ghost predicate NumberedSoFar(owner: seq<int>) {
    forall i, g :: 0 <= i < |owner| && 0 <= g < owner[i] ==> g in owner[..i]
  }

  /** State of the pass after n items. */
  ghost predicate Scanned(items: seq<Item>, n: nat, groups: seq<seq<Item>>, names: map<string, nat>,
                          owner: seq<int>)
  {
    && LabelTable(items, n, |groups|, names, owner)
    && OwnersLinked(items, n, owner)
    && Contents(items, n, groups, owner)
    && NumberedSoFar(owner)
  }

  lemma {:induction false} LinkedSameOwner(items: seq<Item>, n: nat, m: nat, names: map<string, nat>,
                                           owner: seq<int>, p: seq<nat>)
    requires LabelTable(items, n, m, names, owner) && Walk(items, n, p)
    ensures owner[p[0]] == owner[p[|p|-1]]
    decreases |p|
  {
    if |p| > 1 {
      var q := p[..|p|-1];
      assert Walk(items, n, q);
      LinkedSameOwner(items, n, m, names, owner, q);
      assert Adjacent(items, p[|p|-2], p[|p|-1]);
      var l :| l in Labels(items[p[|p|-2]]) && l in Labels(items[p[|p|-1]]);
      assert names[l] == owner[p[|p|-2]];
    }
  }

  lemma {:induction false} PickNone(items: seq<Item>, owner: seq<int>, g: int, n: nat)
    requires n <= |items| && n <= |owner| && g !in owner
    ensures Pick(items, owner, g, n) == []
  {
    if n > 0 { PickNone(items, owner, g, n - 1); }
  }

  lemma {:induction false} PickLonger(items: seq<Item>, owner: seq<int>, o: int, g: int, n: nat)
    requires n <= |items| && n <= |owner|
    ensures Pick(items, owner + [o], g, n) == Pick(items, owner, g, n)
  {
    if n > 0 { PickLonger(items, owner, o, g, n - 1); }
  }

  /** Reading one more item that joins group g keeps same-owner items linked. */
  lemma {:induction false} ExtendLinks(items: seq<Item>, n: nat, m: nat, names: map<string, nat>,
                                       owner: seq<int>, g: nat, i: nat, j: nat)
    requires n < |items| && LabelTable(items, n, m, names, owner) && OwnersLinked(items, n, owner)
    requires g in owner ==> Key(items[n]) in names && names[Key(items[n])] == g
    requires !Unlabelled(items[n])
    requires i <= n && j <= n && (owner + [g])[i] == (owner + [g])[j] >= 0
    ensures Linked(items, n + 1, i, j)
  {
    if i < n && j < n {
      LinkedMonotone(items, n, n + 1, i, j);
    } else if i == n && j == n {
      LinkedStep(items, n + 1, n, n);
    } else {
      var o := if i < n then i else j;
      var k :| 0 <= k < n && Key(items[n]) in Labels(items[k]);
      LinkedMonotone(items, n, n + 1, o, k);
      assert Adjacent(items, k, n);
      LinkedStep(items, n + 1, k, n);
      LinkedTransitive(items, n + 1, o, k, n);
      LinkedSymmetric(items, n + 1, o, n);
    }
  }

  lemma SameGroup(items: seq<Item>, n: nat, m: nat, names: map<string, nat>, owner: seq<int>, i: nat, j: nat)
    requires LabelTable(items, n, m, names, owner) && OwnersLinked(items, n, owner)
    requires i < n && j < n && !Unlabelled(items[i])
    ensures Linked(items, n, i, j) <==> owner[i] == owner[j]
  {
    if Linked(items, n, i, j) {
      var p :| Walk(items, n, p) && p[0] == i && p[|p|-1] == j;
      LinkedSameOwner(items, n, m, names, owner, p);
    }
  }

  /** The label table answers whether the next item ties two groups. */
  lemma TiesDecided(items: seq<Item>, n: nat, m: nat, names: map<string, nat>, owner: seq<int>)
    requires n < |items| && LabelTable(items, n, m, names, owner) && OwnersLinked(items, n, owner)
    ensures var it := items[n];
            Ties(items, n) <==>
              it.name != "" && Key(it) != it.name && it.name in names &&
              (Key(it) in names ==> names[Key(it)] != names[it.name])
  {
    var it := items[n];
    forall i, j | 0 <= i < n && 0 <= j < n && Key(it) in Labels(items[i]) && it.name in Labels(items[j])
      ensures Linked(items, n, i, j) <==> names[Key(it)] == names[it.name]
    {
      SameGroup(items, n, m, names, owner, i, j);
    }
    if it.name in names && Key(it) in names {
      var i :| 0 <= i < n && Key(it) in Labels(items[i]);
      var j :| 0 <= j < n && it.name in Labels(items[j]);
      assert Linked(items, n, i, j) <==> names[Key(it)] == names[it.name];
    }
  }

  /** The label table after an item has joined group g. */
  function Entered(names: map<string, nat>, it: Item, g: nat): map<string, nat> {
    var names' := names[Key(it) := g];
    if it.name == "" then names' else names'[it.name := g]
  }

  /** The groups after an item has joined group g, which may be a new last one. */
  function Placed(groups: seq<seq<Item>>, it: Item, g: nat): seq<seq<Item>>
    requires g <= |groups|
  {
    if g == |groups| then groups + [[it]] else groups[g := groups[g] + [it]]
  }

  /** A refusal reports a name conflict exactly when some item ties two groups, wherever it stands;
      a mix of labelled and unlabelled items is the only other refusal; and every accepted labelled
      request is split into its connected components. */
  method GroupShardInstances(items: seq<Item>) returns (r: Outcome)
    ensures r.NameInTwoShards? <==> SomeTies(items, |items|)
    ensures r.UnnamedMember? <==>
            !SomeTies(items, |items|) && (exists it :: it in items && Unlabelled(it))
            && (exists it :: it in items && !Unlabelled(it))
    ensures r.Groups? && items == [] ==> r.groups == []
    ensures r.Groups? && items != [] && (forall it :: it in items ==> Unlabelled(it)) ==> r.groups == [items]
    ensures r.Groups? && (forall it :: it in items ==> !Unlabelled(it)) ==>
            exists owner :: ComponentGrouping(items, r.groups, owner)
  {
    if items == [] {
      r := Groups([]);
      assert ComponentGrouping(items, [], []);
      return;
    }
    if forall it | it in items :: Unlabelled(it) {
      assert items[0] in items;
      return Groups([items]);
    }
    var clash, groups, names, unnamed;
    ghost var owner;
    clash, groups, names, unnamed, owner := Scan(items);
    if clash { return NameInTwoShards; }
    AllScanned(items, groups, names, owner);
    UnnamedDecides(items, unnamed);
    r := if unnamed != [] then UnnamedMember else Groups(groups);
  }

  /** The pass over the items: it stops at the first tie, and otherwise sets the unlabelled items aside
      and groups the others. */
  method Scan(items: seq<Item>)
    returns (clash: bool, groups: seq<seq<Item>>, names: map<string, nat>, unnamed: seq<Item>, ghost owner: seq<int>)
    ensures clash ==> SomeTies(items, |items|)
    ensures !clash ==> Passed(items, |items|, groups, names, unnamed, owner)
  {
    clash, groups, names, unnamed, owner := false, [], map[], [], [];
    var n := 0;
    while n < |items| && !clash
      invariant n <= |items|
      invariant clash ==> n < |items| && Ties(items, n)
      invariant !clash ==> Passed(items, n, groups, names, unnamed, owner)
      decreases |items| - n, !clash
    {
      clash, groups, names, unnamed, owner := Place(items, n, groups, names, unnamed, owner);
      if !clash { n := n + 1; }
    }
  }

  /** The pass has taken the first n items without meeting a tie. */
  ghost predicate Passed(items: seq<Item>, n: nat, groups: seq<seq<Item>>, names: map<string, nat>, unnamed: seq<Item>,
                         owner: seq<int>)
  {
    Scanned(items, n, groups, names, owner) && !SomeTies(items, n) && UnnamedSoFar(items, n, unnamed)
  }

  /** One turn of the pass. */
  method Place(items: seq<Item>, n: nat, groups: seq<seq<Item>>, names: map<string, nat>, unnamed: seq<Item>,
               ghost owner: seq<int>)
    returns (clash: bool, groups': seq<seq<Item>>, names': map<string, nat>, unnamed': seq<Item>,
      ghost owner': seq<int>)
    requires n < |items| && Passed(items, n, groups, names, unnamed, owner)
    ensures clash <==> Ties(items, n)
    ensures !clash ==> Passed(items, n + 1, groups', names', unnamed', owner')
  {
    var it := items[n];
    clash, groups', names', unnamed', owner' := false, groups, names, unnamed, owner;
    if Unlabelled(it) {
      SkipItem(items, n, groups, names, owner);
      unnamed', owner' := unnamed + [it], owner + [-1];
    } else {
      TiesDecided(items, n, |groups|, names, owner);
      var g := if Key(it) in names then names[Key(it)] else |groups|;
      if it.name != "" && it.name in names && names[it.name] != g {
        clash := true;
      } else {
        AddItem(items, n, groups, names, owner, g);
        groups', names', owner' := Placed(groups, it, g), Entered(names, it, g), owner + [g];
      }
    }
  }

  lemma UnnamedDecides(items: seq<Item>, unnamed: seq<Item>)
    requires UnnamedSoFar(items, |items|, unnamed)
    ensures unnamed == [] <==> forall it :: it in items ==> !Unlabelled(it)
  {
    if unnamed != [] { assert unnamed[0] in items; }
  }

  /** The items set aside are the unlabelled ones. */
  ghost predicate UnnamedSoFar(items: seq<Item>, n: nat, unnamed: seq<Item>) {
    && n <= |items|
    && (forall it :: it in unnamed ==> it in items && Unlabelled(it))
    && (forall i :: 0 <= i < n && Unlabelled(items[i]) ==> items[i] in unnamed)
  }

  lemma {:induction false} ExtendContents(items: seq<Item>, n: nat, groups: seq<seq<Item>>, owner: seq<int>, g: int)
    requires n < |items| && Contents(items, n, groups, owner) && -1 <= g <= |groups|
    requires |groups| !in owner
    ensures var groups' := if g == -1 then groups else Placed(groups, items[n], g);
            Contents(items, n + 1, groups', owner + [g])
  {
    var owner' := owner + [g];
    var groups' := if g == -1 then groups else Placed(groups, items[n], g);
    assert owner'[n] == g;
    forall h | 0 <= h < |groups'|
      ensures h in owner' && groups'[h] == Pick(items, owner', h, n + 1)
    {
      PickLonger(items, owner, g, h, n);
      if h == |groups| {
        PickNone(items, owner, h, n);
      } else {
        assert h in owner && groups[h] == Pick(items, owner, h, n);
      }
    }
  }

  lemma ExtendNumbering(owner: seq<int>, g: int)
    requires NumberedSoFar(owner) && forall h :: 0 <= h < g ==> h in owner
    ensures NumberedSoFar(owner + [g])
  {
    var owner' := owner + [g];
    forall i, h | 0 <= i < |owner'| && 0 <= h < owner'[i] ensures h in owner'[..i] {
      assert owner'[..i] == owner[..i];
      if i == |owner| { assert owner[..i] == owner; }
    }
  }

  lemma BackedLater(items: seq<Item>, n: nat, m: nat, names: map<string, nat>)
    requires n < |items| && Backed(items, n, m, names)
    ensures Backed(items, n + 1, m, names)
  {
    forall l | l in names ensures exists i :: 0 <= i < n + 1 && l in Labels(items[i]) {
      var i :| 0 <= i < n && l in Labels(items[i]);
    }
  }

  lemma SkipPointing(items: seq<Item>, n: nat, names: map<string, nat>, owner: seq<int>)
    requires n < |items| && Pointing(items, n, names, owner) && Unlabelled(items[n])
    ensures Pointing(items, n + 1, names, owner + [-1])
  {
  }

  lemma SkipLinks(items: seq<Item>, n: nat, owner: seq<int>)
    requires n < |items| && OwnersLinked(items, n, owner)
    ensures OwnersLinked(items, n + 1, owner + [-1])
  {
    var owner' := owner + [-1];
    forall i, j | 0 <= i <= n && 0 <= j <= n && owner'[i] == owner'[j] >= 0
      ensures Linked(items, n + 1, i, j)
    {
      LinkedMonotone(items, n, n + 1, i, j);
    }
  }

  lemma {:induction false} SkipItem(items: seq<Item>, n: nat, groups: seq<seq<Item>>, names: map<string, nat>,
                                    owner: seq<int>)
    requires n < |items| && Scanned(items, n, groups, names, owner) && Unlabelled(items[n])
    ensures Scanned(items, n + 1, groups, names, owner + [-1])
  {
    SkipPointing(items, n, names, owner);
    BackedLater(items, n, |groups|, names);
    SkipLinks(items, n, owner);
    ExtendContents(items, n, groups, owner, -1);
    ExtendNumbering(owner, -1);
  }

  lemma ExtendPointing(items: seq<Item>, n: nat, names: map<string, nat>, owner: seq<int>, g: nat)
    requires n < |items| && Pointing(items, n, names, owner) && !Unlabelled(items[n])
    requires forall l :: l in Labels(items[n]) && l in names ==> names[l] == g
    ensures Pointing(items, n + 1, Entered(names, items[n], g), owner + [g])
  {
    var names', owner' := Entered(names, items[n], g), owner + [g];
    forall i, l | 0 <= i <= n && l in Labels(items[i]) ensures l in names' && names'[l] == owner'[i] {
      if i < n { assert l in names && names[l] == owner[i]; }
    }
  }

  lemma ExtendBacked(items: seq<Item>, n: nat, m: nat, names: map<string, nat>, g: nat)
    requires n < |items| && Backed(items, n, m, names) && !Unlabelled(items[n]) && g <= m
    ensures Backed(items, n + 1, if g == m then m + 1 else m, Entered(names, items[n], g))
  {
    var names' := Entered(names, items[n], g);
    BackedLater(items, n, m, names);
    forall l | l in names' ensures exists i :: 0 <= i < n + 1 && l in Labels(items[i]) {
      if l !in names { assert l in Labels(items[n]); }
    }
  }

  lemma {:induction false} AddItem(items: seq<Item>, n: nat, groups: seq<seq<Item>>, names: map<string, nat>,
                                   owner: seq<int>, g: nat)
    requires n < |items| && Scanned(items, n, groups, names, owner) && !Unlabelled(items[n])
    requires g == if Key(items[n]) in names then names[Key(items[n])] else |groups|
    requires items[n].name in names ==> names[items[n].name] == g
    ensures Scanned(items, n + 1, Placed(groups, items[n], g), Entered(names, items[n], g), owner + [g])
  {
    assert g <= |groups|;
    ExtendPointing(items, n, names, owner, g);
    ExtendBacked(items, n, |groups|, names, g);
    forall i, j | 0 <= i <= n && 0 <= j <= n && (owner + [g])[i] == (owner + [g])[j] >= 0
      ensures Linked(items, n + 1, i, j)
    {
      ExtendLinks(items, n, |groups|, names, owner, g, i, j);
    }
    ExtendContents(items, n, groups, owner, g);
    ExtendNumbering(owner, g);
  }

  lemma AllScanned(items: seq<Item>, groups: seq<seq<Item>>, names: map<string, nat>, owner: seq<int>)
    requires Scanned(items, |items|, groups, names, owner)
    ensures (forall it :: it in items ==> !Unlabelled(it)) ==> ComponentGrouping(items, groups, owner)
  {
    assert items[..|items|] == items;
    forall i, j | 0 <= i < |items| && 0 <= j < |items| && Linked(items, |items|, i, j)
      ensures owner[i] == owner[j]
    {
      var p :| Walk(items, |items|, p) && p[0] == i && p[|p|-1] == j;
      LinkedSameOwner(items, |items|, |groups|, names, owner, p);
    }
  }

  // ---------- What the answer means ----------

  /** The request determines the answer: the contract of GroupShardInstances leaves no choice. */
  lemma {:induction false} GroupingUnique(items: seq<Item>, g1: seq<seq<Item>>, o1: seq<int>,
                                          g2: seq<seq<Item>>, o2: seq<int>)
    requires ComponentGrouping(items, g1, o1) && ComponentGrouping(items, g2, o2)
    ensures g1 == g2
  {
    SameOwners(items, g1, o1, g2, o2, |items|);
    assert o1 == o2 by { assert o1[..|items|] == o1 && o2[..|items|] == o2; }
    assert |g1| < |g2| ==> |g1| in o2;
    assert |g2| < |g1| ==> |g2| in o1;
  }

  lemma {:induction false} SameOwners(items: seq<Item>, g1: seq<seq<Item>>, o1: seq<int>,
                                      g2: seq<seq<Item>>, o2: seq<int>, n: nat)
    requires ComponentGrouping(items, g1, o1) && ComponentGrouping(items, g2, o2) && n <= |items|
    ensures o1[..n] == o2[..n]
  {
    if n > 0 {
      var k := n - 1;
      SameOwners(items, g1, o1, g2, o2, k);
      if o1[k] in o1[..k] {
        SameSeen(items, g1, o1, g2, o2, k);
      } else if o2[k] in o2[..k] {
        SameSeen(items, g2, o2, g1, o1, k);
      } else {
        assert !(o1[k] < o2[k]) && !(o2[k] < o1[k]);
      }
    }
  }

  lemma {:induction false} SameSeen(items: seq<Item>, g1: seq<seq<Item>>, o1: seq<int>,
                                    g2: seq<seq<Item>>, o2: seq<int>, k: nat)
    requires ComponentGrouping(items, g1, o1) && ComponentGrouping(items, g2, o2) && k < |items|
    requires o1[..k] == o2[..k] && o1[k] in o1[..k]
    ensures o1[k] == o2[k]
  {
    var j :| 0 <= j < k && o1[j] == o1[k];
    assert Linked(items, |items|, j, k);
    assert o2[j] == o1[..k][j];
  }

  /** Members of the first m groups. */
  function SizeSum(groups: seq<seq<Item>>, m: nat): nat
    requires m <= |groups|
  {
    if m == 0 then 0 else SizeSum(groups, m - 1) + |groups[m-1]|
  }

  /** No requested member is lost or doubled: every item has one owner, and the groups hold as many
      members as the request. */
  lemma {:induction false} GroupsKeepMembers(items: seq<Item>, groups: seq<seq<Item>>, owner: seq<int>)
    requires ComponentGrouping(items, groups, owner)
    ensures SizeSum(groups, |groups|) == |items|
  {
    SizesAreOwned(items, groups, owner, |groups|);
    OwnedAll(owner, |groups|, |items|);
  }

  /** How many of the first n owners are below m. */
  function Owned(owner: seq<int>, m: int, n: nat): nat
    requires n <= |owner|
  {
    if n == 0 then 0 else Owned(owner, m, n - 1) + (if 0 <= owner[n-1] < m then 1 else 0)
  }

  lemma {:induction false} OwnedAll(owner: seq<int>, m: nat, n: nat)
    requires n <= |owner| && forall i :: 0 <= i < |owner| ==> 0 <= owner[i] < m
    ensures Owned(owner, m, n) == n
  {
    if n > 0 { OwnedAll(owner, m, n - 1); }
  }

  lemma {:induction false} OwnedStep(items: seq<Item>, owner: seq<int>, m: nat, n: nat)
    requires n <= |owner| && n <= |items|
    ensures Owned(owner, m + 1, n) == Owned(owner, m, n) + |Pick(items, owner, m, n)|
  {
    if n > 0 { OwnedStep(items, owner, m, n - 1); }
  }

  lemma {:induction false} SizesAreOwned(items: seq<Item>, groups: seq<seq<Item>>, owner: seq<int>, m: nat)
    requires ComponentGrouping(items, groups, owner) && m <= |groups|
    ensures SizeSum(groups, m) == Owned(owner, m, |items|)
  {
    if m > 0 {
      SizesAreOwned(items, groups, owner, m - 1);
      OwnedStep(items, owner, m - 1, |items|);
    } else {
      NoneOwned(owner, |items|);
    }
  }

  lemma {:induction false} NoneOwned(owner: seq<int>, n: nat)
    requires n <= |owner|
    ensures Owned(owner, 0, n) == 0
  {
    if n > 0 { NoneOwned(owner, n - 1); }
  }

  /** Acceptance depends on the order of the request: the same three members are accepted when the
      member naming both labels comes first and refused when it comes last. */
  lemma RefusalDependsOnOrder()
    ensures var a, b, ab := Item("a", ""), Item("b", ""), Item("b", "a");
            !SomeTies([ab, a, b], 3) && SomeTies([a, b, ab], 3)
  {
    var a, b, ab := Item("a", ""), Item("b", ""), Item("b", "a");
    var good, bad := [ab, a, b], [a, b, ab];
    assert !Ties(good, 0) && !Ties(good, 1) && !Ties(good, 2);
    assert Labels(a) == {"a"} && Labels(b) == {"b"};
    if i, j :| (0 <= i < 2 && 0 <= j < 2 && Key(ab) in Labels(bad[i]) && ab.name in Labels(bad[j])
                && Linked(bad, 2, i, j)) {
      assert "a"[0] != "b"[0];
      assert i == 0 && j == 1;
      var p :| Walk(bad, 2, p) && p[0] == 0 && p[|p|-1] == 1;
      WalkStuck(bad, p);
    }
    assert ab.name in Labels(bad[1]);
    assert "a"[0] != "b"[0];
    assert Ties(bad, 2);
  }

  lemma {:induction false} WalkStuck(items: seq<Item>, p: seq<nat>)
    requires |items| >= 2 && !Adjacent(items, 0, 1) && Walk(items, 2, p) && p[0] == 0
    ensures p[|p|-1] == 0
    decreases |p|
  {
    if |p| > 1 {
      WalkStuck(items, p[..|p|-1]);
      assert Adjacent(items, p[|p|-2], p[|p|-1]);
    }
  }
}
