// When the order of a grow request decides whether it can be grouped: which requests some order refuses,
// and which ones some order accepts (controller/api.py, MongoDbCluster._group_shard_instances).

module GroupingOrder {
  import opened ShardGrouping

  /** The two items in any order. */
  predicate SameItems(p: seq<Item>, items: seq<Item>) { multiset(p) == multiset(items) }

  lemma SameMembers(p: seq<Item>, items: seq<Item>)
    requires SameItems(p, items)
    ensures |p| == |items| && forall it :: it in p <==> it in items
  {
    assert |multiset(p)| == |multiset(items)|;
    forall it ensures it in p <==> it in items {
      assert it in p <==> it in multiset(p);
      assert it in items <==> it in multiset(items);
    }
  }

  // ---------- Some order is refused ----------

  /** Item a, right after b, is taken for a name in two shards: b uses the name of a as a label and does not
      know its key. */
  predicate Clash(a: Item, b: Item) {
    a.name != "" && Key(a) != a.name && a.name in Labels(b) && Key(a) !in Labels(b)
  }

  ghost predicate SomeClash(items: seq<Item>) {
    exists a, b :: a in items && b in items && Clash(a, b)
  }

  /** Some order of the request is refused exactly when two of its items clash. */
  lemma RefusedOrderIff(items: seq<Item>)
    ensures (exists p :: SameItems(p, items) && SomeTies(p, |p|)) <==> SomeClash(items)
  {
    if p :| SameItems(p, items) && SomeTies(p, |p|) {
      SameMembers(p, items);
      var k :| 0 <= k < |p| && Ties(p, k);
      TieHasClash(p, k);
    }
    if a, b :| a in items && b in items && Clash(a, b) {
      var p := ClashFirst(items, a, b);
    }
  }

  lemma TieHasClash(p: seq<Item>, k: nat)
    requires k < |p| && Ties(p, k)
    ensures SomeClash(p)
  {
    var j :| 0 <= j < k && p[k].name in Labels(p[j]);
    LinkedStep(p, k, j, j);
    assert Clash(p[k], p[j]) && p[k] in p && p[j] in p;
  }

  /** The order that starts with the two clashing items. */
  lemma ClashFirst(items: seq<Item>, a: Item, b: Item) returns (p: seq<Item>)
    requires a in items && b in items && Clash(a, b)
    ensures SameItems(p, items) && SomeTies(p, |p|)
  {
    var rest := Remove(Remove(items, a), b);
    p := [b, a] + rest;
    PutBack(multiset(items), a, b);
    TiesAtOnce(p);
  }

  lemma PutBack<T>(m: multiset<T>, a: T, b: T)
    requires a in m && b in m && a != b
    ensures multiset([b, a]) + (m - multiset{a} - multiset{b}) == m
  {
  }

  lemma TiesAtOnce(p: seq<Item>)
    requires |p| > 1 && Clash(p[1], p[0])
    ensures SomeTies(p, |p|)
  {
    assert Ties(p, 1);
  }

  /** The request without the first copy of an item. */
  function Remove(items: seq<Item>, it: Item): (rest: seq<Item>)
    ensures multiset(rest) == multiset(items) - multiset{it}
  {
    if items == [] then []
    else
      assert items == [items[0]] + items[1..];
      if items[0] == it then items[1..] else [items[0]] + Remove(items[1..], it)
  }

  // ---------- Some order is accepted ----------

  predicate Step(items: seq<Item>, from: string, to: string) {
    exists it :: it in items && it.name != "" && Key(it) == from && it.name == to
  }

  /** w leads from label to label, each time from the key of an item to its name. */
  ghost predicate Path(items: seq<Item>, w: seq<string>) {
    |w| > 0 && forall k :: 0 < k < |w| ==> Step(items, w[k-1], w[k])
  }

  ghost predicate Reaches(items: seq<Item>, from: string, to: string) {
    exists w :: Path(items, w) && w[0] == from && w[|w|-1] == to
  }

  /** All labels of an item hang on one root, and each is reached from it. */
  ghost predicate RootedBy(items: seq<Item>, root: map<string, string>) {
    forall it, l {:trigger Hangs(items, root, it, l)} :: it in items && l in Labels(it) ==> Hangs(items, root, it, l)
  }

  ghost predicate Hangs(items: seq<Item>, root: map<string, string>, it: Item, l: string) {
    l in root && Key(it) in root && root[l] == root[Key(it)] && Reaches(items, root[l], l)
  }

  /** Every component of the label graph has a label from which, from keys to names, all others are reached. */
  ghost predicate Rooted(items: seq<Item>) {
    exists root :: RootedBy(items, root)
  }

  lemma ReachesSelf(items: seq<Item>, l: string)
    ensures Reaches(items, l, l)
  {
    assert Path(items, [l]) && [l][0] == l;
  }

  lemma ReachesOn(items: seq<Item>, more: seq<Item>, from: string, l: string, to: string)
    requires Reaches(items, from, l) && forall it :: it in items ==> it in more
    requires l == to || Step(more, l, to)
    ensures Reaches(more, from, to)
  {
    var w :| Path(items, w) && w[0] == from && w[|w|-1] == l;
    var v := if l == to then w else w + [to];
    forall k | 0 < k < |v| ensures Step(more, v[k-1], v[k]) {
      if k < |w| { assert Step(items, w[k-1], w[k]); }
    }
    assert Path(more, v) && v[0] == from && v[|v|-1] == to;
  }

  // ----- An accepted order gives the roots -----

  lemma {:induction false} RootAlongWalk(items: seq<Item>, n: nat, root: map<string, string>, w: seq<nat>)
    requires n <= |items| && RootedBy(items[..n], root) && Walk(items, n, w)
    requires !Unlabelled(items[w[0]]) && !Unlabelled(items[w[|w|-1]])
    ensures SameRoot(root, Key(items[w[0]]), Key(items[w[|w|-1]]))
    decreases |w|
  {
    var last := items[w[|w|-1]];
    assert items[..n][w[|w|-1]] == last && Key(last) in Labels(last);
    assert Hangs(items[..n], root, last, Key(last));
    if |w| > 1 {
      var prev := items[w[|w|-2]];
      assert items[..n][w[|w|-2]] == prev;
      assert Adjacent(items, w[|w|-2], w[|w|-1]);
      var l :| l in Labels(prev) && l in Labels(last);
      assert Hangs(items[..n], root, prev, l) && Hangs(items[..n], root, last, l);
      assert Walk(items, n, w[..|w|-1]);
      RootAlongWalk(items, n, root, w[..|w|-1]);
    }
  }

  predicate SameRoot(root: map<string, string>, a: string, b: string) { a in root && b in root && root[a] == root[b] }

  /** The labels that the items of a path lead through hang on one root. */
  lemma {:induction false} RootAlongPath(items: seq<Item>, root: map<string, string>, w: seq<string>)
    requires RootedBy(items, root) && Path(items, w) && w[|w|-1] in root
    ensures SameRoot(root, w[0], w[|w|-1])
    decreases |w|
  {
    if |w| > 1 {
      assert Step(items, w[|w|-2], w[|w|-1]);
      var it :| it in items && it.name != "" && Key(it) == w[|w|-2] && it.name == w[|w|-1];
      assert it.name in Labels(it) && Hangs(items, root, it, it.name);
      RootAlongPath(items, root, w[..|w|-1]);
    }
  }

  /** Some item carries the label. */
  ghost predicate Known(items: seq<Item>, l: string) { exists it :: it in items && l in Labels(it) }

  /** The labels that the roots speak of are those of the items. */
  ghost predicate Exactly(items: seq<Item>, root: map<string, string>) {
    forall l {:trigger Known(items, l)} :: l in root ==> Known(items, l)
  }

  lemma {:induction false} AcceptedIsRooted(p: seq<Item>, n: nat) returns (root: map<string, string>)
    requires n <= |p| && !SomeTies(p, n)
    ensures RootedBy(p[..n], root) && Exactly(p[..n], root)
  {
    if n == 0 {
      return map[];
    }
    var before := AcceptedIsRooted(p, n - 1);
    assert !Ties(p, n - 1);
    root := RootsWith(before, p[n-1]);
    assert p[..n] == p[..n-1] + [p[n-1]];
    OneMoreRooted(p, n - 1, before);
  }

  function RootsWith(root: map<string, string>, it: Item): map<string, string> {
    if Unlabelled(it) then root
    else
      var r := if Key(it) in root then root[Key(it)] else Key(it);
      if it.name == "" then root[Key(it) := r] else root[Key(it) := r][it.name := r]
  }

  /** Without a tie the roots of the earlier labels stay. */
  lemma RootsKept(p: seq<Item>, n: nat, root: map<string, string>, l: string)
    requires n < |p| && !Ties(p, n) && RootedBy(p[..n], root) && Exactly(p[..n], root) && l in root
    ensures l in RootsWith(root, p[n]) && RootsWith(root, p[n])[l] == root[l]
  {
    var it := p[n];
    if !Unlabelled(it) && l == it.name && l != Key(it) {
      assert Known(p[..n], l);
      var known := KnownAt(p, n, l);
      var w := WalkBetween(p, n, known);
      var a, b := p[w[0]], p[w[|w|-1]];
      RootAlongWalk(p, n, root, w);
      assert p[..n][w[0]] == a && p[..n][w[|w|-1]] == b;
      assert Hangs(p[..n], root, a, Key(it)) && Hangs(p[..n], root, b, l);
    }
  }

  lemma KnownAt(p: seq<Item>, n: nat, l: string) returns (j: nat)
    requires n <= |p| && Known(p[..n], l)
    ensures j < n && l in Labels(p[j])
  {
    var x :| x in p[..n] && l in Labels(x);
    j :| 0 <= j < n && p[..n][j] == x;
  }

  /** An item that ties nothing, with a name that item j carries, finds its key and its name linked. */
  lemma WalkBetween(p: seq<Item>, n: nat, j: nat) returns (w: seq<nat>)
    requires n < |p| && !Ties(p, n) && p[n].name != "" && Key(p[n]) != p[n].name
    requires j < n && p[n].name in Labels(p[j])
    ensures Walk(p, n, w) && Key(p[n]) in Labels(p[w[0]]) && p[n].name in Labels(p[w[|w|-1]])
  {
    var i, j :| 0 <= i < n && 0 <= j < n && Key(p[n]) in Labels(p[i]) && p[n].name in Labels(p[j])
                && Linked(p, n, i, j);
    w :| Walk(p, n, w) && w[0] == i && w[|w|-1] == j;
  }

  lemma OneMoreRooted(p: seq<Item>, n: nat, root: map<string, string>)
    requires n < |p| && !Ties(p, n) && RootedBy(p[..n], root) && Exactly(p[..n], root)
    ensures RootedBy(p[..n] + [p[n]], RootsWith(root, p[n])) && Exactly(p[..n] + [p[n]], RootsWith(root, p[n]))
  {
    var last, all, roots := p[n], p[..n] + [p[n]], RootsWith(root, p[n]);
    assert last in all;
    forall it, l | it in all && l in Labels(it)
      ensures Hangs(all, roots, it, l)
    {
      if it in p[..n] {
        assert Hangs(p[..n], root, it, l);
        RootsKept(p, n, root, l);
        RootsKept(p, n, root, Key(it));
        ReachesOn(p[..n], all, root[l], l, l);
      } else {
        KeyReached(p, n, root);
        if l != Key(it) { ReachesOn(all, all, roots[Key(it)], Key(it), l); }
      }
    }
    forall l | l in roots ensures Known(all, l) {
      if l in root {
        assert Known(p[..n], l);
        var it :| it in p[..n] && l in Labels(it);
        assert it in all;
      } else {
        assert l in Labels(last);
      }
    }
  }

  lemma KeyReached(p: seq<Item>, n: nat, root: map<string, string>)
    requires n < |p| && !Ties(p, n) && RootedBy(p[..n], root) && Exactly(p[..n], root) && !Unlabelled(p[n])
    ensures var roots := RootsWith(root, p[n]);
            Key(p[n]) in roots && Reaches(p[..n] + [p[n]], roots[Key(p[n])], Key(p[n]))
  {
    var key := Key(p[n]);
    assert key in Labels(p[n]);
    if key in root {
      RootsKept(p, n, root, key);
      assert Known(p[..n], key);
      var it :| it in p[..n] && key in Labels(it);
      assert Hangs(p[..n], root, it, key);
      ReachesOn(p[..n], p[..n] + [p[n]], root[key], key, key);
    } else {
      ReachesSelf(p[..n] + [p[n]], key);
    }
  }

  // ----- Roots give an accepted order -----

  /** Every item placed so far is linked to one that carries its root. */
  ghost predicate Anchored(p: seq<Item>, root: map<string, string>) {
    forall i {:trigger AnchoredAt(p, root, i)} :: 0 <= i < |p| && !Unlabelled(p[i]) ==> AnchoredAt(p, root, i)
  }

  ghost predicate AnchoredAt(p: seq<Item>, root: map<string, string>, i: nat)
    requires i < |p|
  {
    Key(p[i]) in root && exists j :: 0 <= j < |p| && root[Key(p[i])] in Labels(p[j]) && Linked(p, |p|, i, j)
  }

  /** The item can be placed next: its key is known, or is a root. */
  ghost predicate Placeable(p: seq<Item>, root: map<string, string>, it: Item) {
    Unlabelled(it) || Known(p, Key(it)) || (Key(it) in root && root[Key(it)] == Key(it))
  }

  lemma LinkedInPrefix(p: seq<Item>, q: seq<Item>, n: nat, i: nat, j: nat)
    requires n <= |p| && p <= q
    ensures Linked(p, n, i, j) <==> Linked(q, n, i, j)
  {
    if w :| Walk(p, n, w) && w[0] == i && w[|w|-1] == j {
      assert forall k :: 0 < k < |w| ==> Adjacent(q, w[k-1], w[k]) by {
        forall k | 0 < k < |w| ensures Adjacent(q, w[k-1], w[k]) { assert Adjacent(p, w[k-1], w[k]); }
      }
      assert Walk(q, n, w);
    }
    if w :| Walk(q, n, w) && w[0] == i && w[|w|-1] == j {
      forall k | 0 < k < |w| ensures Adjacent(p, w[k-1], w[k]) { assert Adjacent(q, w[k-1], w[k]); }
      assert Walk(p, n, w);
    }
  }

  lemma TiesInPrefix(p: seq<Item>, q: seq<Item>, k: nat)
    requires k < |p| && p <= q && Ties(q, k)
    ensures Ties(p, k)
  {
    if i, j :| (0 <= i < k && 0 <= j < k && Key(p[k]) in Labels(p[i]) && p[k].name in Labels(p[j])
                && Linked(p, k, i, j)) {
      LinkedInPrefix(p, q, k, i, j);
    }
  }

  /** Two placed items of one component are linked. */
  lemma AnchorsMeet(p: seq<Item>, root: map<string, string>, i: nat, j: nat)
    requires Anchored(p, root) && i < |p| && j < |p| && !Unlabelled(p[i]) && !Unlabelled(p[j])
    requires AnchoredAt(p, root, i) && AnchoredAt(p, root, j) && root[Key(p[i])] == root[Key(p[j])]
    ensures Linked(p, |p|, i, j)
  {
    var r := root[Key(p[i])];
    var i' :| 0 <= i' < |p| && r in Labels(p[i']) && Linked(p, |p|, i, i');
    var j' :| 0 <= j' < |p| && r in Labels(p[j']) && Linked(p, |p|, j, j');
    assert Adjacent(p, i', j');
    LinkedStep(p, |p|, i', j');
    LinkedTransitive(p, |p|, i, i', j');
    LinkedSymmetric(p, |p|, j, j');
    LinkedTransitive(p, |p|, i, j', j);
  }

  lemma PlaceableDoesNotTie(items: seq<Item>, root: map<string, string>, p: seq<Item>, it: Item)
    requires RootedBy(items, root) && it in items && forall x :: x in p ==> x in items
    requires Anchored(p, root) && Placeable(p, root, it)
    ensures !Ties(p + [it], |p|)
  {
    var q, n := p + [it], |p|;
    if Ties(q, n) {
      var j :| 0 <= j < n && it.name in Labels(q[j]);
      assert q[j] == p[j] && p[j] in p && q[n] == it;
      assert Hangs(items, root, p[j], it.name) && Hangs(items, root, it, it.name) && Hangs(items, root, it, Key(it));
      assert AnchoredAt(p, root, j);
      assert Known(p, Key(it)) by { RootIsKnown(p, root, it, j); }
      var i := KeyAt(p, it);
      assert Hangs(items, root, p[i], Key(it)) && AnchoredAt(p, root, i);
      AnchorsMeet(p, root, i, j);
      LinkedInPrefix(p, q, n, i, j);
    }
  }

  lemma KeyAt(p: seq<Item>, it: Item) returns (i: nat)
    requires Known(p, Key(it))
    ensures i < |p| && Key(it) in Labels(p[i])
  {
    var x :| x in p && Key(it) in Labels(x);
    i :| 0 <= i < |p| && p[i] == x;
  }

  /** Next to an item of its component, a placeable one knows its key: it is the root that the other carries. */
  lemma RootIsKnown(p: seq<Item>, root: map<string, string>, it: Item, j: nat)
    requires Placeable(p, root, it) && !Unlabelled(it) && j < |p| && AnchoredAt(p, root, j)
    requires SameRoot(root, Key(p[j]), Key(it))
    ensures Known(p, Key(it))
  {
    var j' :| 0 <= j' < |p| && root[Key(p[j])] in Labels(p[j']) && Linked(p, |p|, j, j');
    assert p[j'] in p;
  }

  lemma AnchoredWith(items: seq<Item>, root: map<string, string>, p: seq<Item>, it: Item)
    requires RootedBy(items, root) && it in items && forall x :: x in p ==> x in items
    requires Anchored(p, root) && Placeable(p, root, it)
    ensures Anchored(p + [it], root)
  {
    var q, n := p + [it], |p|;
    forall i | 0 <= i <= n && !Unlabelled(q[i]) ensures AnchoredAt(q, root, i) {
      if i < n {
        OldAnchor(p, q, root, i);
      } else {
        assert Hangs(items, root, it, Key(it));
        if Known(p, Key(it)) {
          var j := KeyAt(p, it);
          assert p[j] in p && Hangs(items, root, p[j], Key(it)) && AnchoredAt(p, root, j);
          OldAnchor(p, q, root, j);
          NextAnchor(q, root, n, j);
        } else {
          LinkedStep(q, |q|, n, n);
        }
      }
    }
  }

  lemma NextAnchor(q: seq<Item>, root: map<string, string>, n: nat, j: nat)
    requires n < |q| && j < |q| && AnchoredAt(q, root, j) && SameRoot(root, Key(q[n]), Key(q[j]))
    requires Key(q[n]) in Labels(q[n]) && Key(q[n]) in Labels(q[j])
    ensures AnchoredAt(q, root, n)
  {
    var j' :| 0 <= j' < |q| && root[Key(q[j])] in Labels(q[j']) && Linked(q, |q|, j, j');
    assert Adjacent(q, n, j);
    LinkedStep(q, |q|, n, j);
    LinkedTransitive(q, |q|, n, j, j');
  }

  lemma OldAnchor(p: seq<Item>, q: seq<Item>, root: map<string, string>, i: nat)
    requires p <= q && i < |p| && AnchoredAt(p, root, i)
    ensures AnchoredAt(q, root, i)
  {
    var j :| 0 <= j < |p| && root[Key(p[i])] in Labels(p[j]) && Linked(p, |p|, i, j);
    LinkedInPrefix(p, q, |p|, i, j);
    LinkedMonotone(q, |p|, |q|, i, j);
  }

  /** While items are left, one of them can be placed: on the path from the root to a key, the item of the
      first step into an unknown label. */
  lemma SomePlaceable(items: seq<Item>, root: map<string, string>, p: seq<Item>, rest: seq<Item>)
    returns (x: Item)
    requires RootedBy(items, root) && rest != []
    requires forall it :: it in items <==> it in p || it in rest
    ensures x in rest && Placeable(p, root, x)
  {
    x := rest[0];
    if !Placeable(p, root, x) {
      assert Key(x) in Labels(x) && Hangs(items, root, x, Key(x));
      var w :| Path(items, w) && w[0] == root[Key(x)] && w[|w|-1] == Key(x);
      RootAlongPath(items, root, w);
      var k := FirstUnknown(p, root, w);
      assert Step(items, w[k-1], w[k]);
      x :| x in items && x.name != "" && Key(x) == w[k-1] && x.name == w[k];
      assert x.name in Labels(x);
    }
  }

  lemma {:induction false} FirstUnknown(p: seq<Item>, root: map<string, string>, w: seq<string>) returns (k: nat)
    requires |w| > 0 && !KnownOrRoot(p, root, w[|w|-1]) && KnownOrRoot(p, root, w[0])
    ensures 0 < k < |w| && KnownOrRoot(p, root, w[k-1]) && !KnownOrRoot(p, root, w[k])
    decreases |w|
  {
    if KnownOrRoot(p, root, w[|w|-2]) {
      k := |w| - 1;
    } else {
      k := FirstUnknown(p, root, w[..|w|-1]);
    }
  }

  ghost predicate KnownOrRoot(p: seq<Item>, root: map<string, string>, l: string) {
    Known(p, l) || (l in root && root[l] == l)
  }

  lemma {:induction false} Arrange(items: seq<Item>, root: map<string, string>, p: seq<Item>, rest: seq<Item>)
    returns (q: seq<Item>)
    requires RootedBy(items, root) && SameItems(p + rest, items) && Anchored(p, root) && !SomeTies(p, |p|)
    ensures SameItems(q, items) && !SomeTies(q, |q|)
    decreases |rest|
  {
    SameMembers(p + rest, items);
    if rest == [] {
      assert p + rest == p;
      return p;
    }
    var x := SomePlaceable(items, root, p, rest);
    PlaceableDoesNotTie(items, root, p, x);
    AnchoredWith(items, root, p, x);
    StillNoTie(p, x);
    Moved(p, rest, x);
    q := Arrange(items, root, p + [x], Remove(rest, x));
  }

  lemma StillNoTie(p: seq<Item>, x: Item)
    requires !SomeTies(p, |p|) && !Ties(p + [x], |p|)
    ensures !SomeTies(p + [x], |p + [x]|)
  {
    forall k | 0 <= k <= |p| ensures !Ties(p + [x], k) {
      if k < |p| && Ties(p + [x], k) { TiesInPrefix(p, p + [x], k); }
    }
  }

  lemma Moved(p: seq<Item>, rest: seq<Item>, x: Item)
    requires x in rest
    ensures SameItems(p + [x] + Remove(rest, x), p + rest) && |Remove(rest, x)| < |rest|
  {
    var left := Remove(rest, x);
    assert x in multiset(rest);
    assert multiset(p + [x] + left) == multiset(p) + multiset{x} + multiset(left);
    assert |multiset(left)| == |left| && |multiset(rest)| == |rest|;
  }

  /** Some order of the request is accepted exactly when every component of its labels has a root. */
  lemma AcceptedOrderIff(items: seq<Item>)
    ensures (exists p :: SameItems(p, items) && !SomeTies(p, |p|)) <==> Rooted(items)
  {
    if p :| SameItems(p, items) && !SomeTies(p, |p|) {
      var root := AcceptedIsRooted(p, |p|);
      assert p[..|p|] == p;
      SameMembers(p, items);
      forall it, l | it in items && l in Labels(it) ensures Hangs(items, root, it, l) {
        assert Hangs(p, root, it, l);
        ReachesOn(p, items, root[l], l, l);
      }
      assert RootedBy(items, root);
    }
    if root :| RootedBy(items, root) {
      assert [] + items == items;
      var q := Arrange(items, root, [], items);
    }
  }

  /** The order of a request decides exactly when two of its items clash and every component has a root. */
  lemma OrderMattersIff(items: seq<Item>)
    ensures (exists p, q :: SameItems(p, items) && SameItems(q, items) && SomeTies(p, |p|) && !SomeTies(q, |q|))
            <==> SomeClash(items) && Rooted(items)
  {
    RefusedOrderIff(items);
    AcceptedOrderIff(items);
  }
}
