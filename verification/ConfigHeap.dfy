// The dictionaries that _normalize mutates through a moving cursor
// (service.py, MongoConfigurationManager._normalize), proved equal to the fold in ConfigTree.

module ConfigHeap {
  import opened ConfigTree
  import opened Options
  import ConfigMerge

  /** A Python dict. `path` is where it hangs below the root of its tree. */
  class DictObject {
    var entries: map<Key, Cell>
    ghost const path: seq<Key>

    constructor (ghost path: seq<Key>)
      ensures entries == map[] && this.path == path
    {
      entries := map[];
      this.path := path;
    }
  }

  datatype Cell = Val(v: Scalar) | Sub(d: DictObject)

  type Heap = map<DictObject, map<Key, Cell>>

  ghost function Snap(nodes: set<DictObject>): Heap
    reads nodes
  {
    map d | d in nodes :: d.entries
  }

  /** Every dictionary hangs where its path says. */
  ghost predicate Shaped(h: Heap) {
    forall d, k :: d in h && k in h[d] && h[d][k].Sub? ==> h[d][k].d in h && h[d][k].d.path == d.path + [k]
  }

  lemma ChildDeeper(h: Heap, d: DictObject, k: Key)
    requires Shaped(h) && d in h && k in h[d] && h[d][k].Sub?
    ensures var c := h[d][k].d;
            c in h && c.path == d.path + [k] && d.path <= c.path && Deeper(h, c) < Deeper(h, d)
  {
    var c := h[d][k].d;
    assert c in h;
    assert c.path == d.path + [k];
    assert |c.path| > |d.path|;
    assert c in Deeper(h, d);
    assert c !in Deeper(h, c);
  }

  ghost function Deeper(h: Heap, d: DictObject): set<DictObject> {
    set x | x in h && |x.path| > |d.path|
  }

  /** The tree below a dictionary. */
  ghost function ViewOf(h: Heap, d: DictObject): map<Key, Tree>
    requires Shaped(h) && d in h
    decreases Deeper(h, d)
  {
    map k | k in h[d] ::
      if h[d][k].Val? then Leaf(h[d][k].v)
      else
        ChildDeeper(h, d, k);
        Dict(ViewOf(h, h[d][k].d))
  }

  ghost function CellView(h: Heap, c: Cell): Tree
    requires Shaped(h) && (c.Sub? ==> c.d in h)
  {
    if c.Val? then Leaf(c.v) else Dict(ViewOf(h, c.d))
  }

  /** Changing dictionaries that d does not reach leaves its tree alone. */
  lemma {:induction false} ViewUnchanged(h: Heap, h': Heap, d: DictObject, touched: set<DictObject>)
    requires Shaped(h) && Shaped(h') && d in h && d !in touched
    requires forall x :: x in h && x !in touched ==> x in h' && h'[x] == h[x]
    requires forall x, k :: x in h && x !in touched && k in h[x] && h[x][k].Sub? ==> h[x][k].d !in touched
    ensures ViewOf(h', d) == ViewOf(h, d)
    decreases Deeper(h, d)
  {
    forall k | k in h[d] ensures CellView(h', h[d][k]) == CellView(h, h[d][k]) {
      if h[d][k].Sub? {
        var c := h[d][k].d;
        ChildDeeper(h, d, k);
        ViewUnchanged(h, h', c, touched);
      }
    }
  }

  /** The dictionary reached from d by following q. */
  ghost function Follow(h: Heap, d: DictObject, q: seq<Key>): Option<DictObject>
    requires Shaped(h) && d in h
    decreases |q|
  {
    if q == [] then Some(d)
    else if q[0] in h[d] && h[d][q[0]].Sub? then Follow(h, h[d][q[0]].d, q[1..])
    else None
  }

  lemma {:induction false} FollowPath(h: Heap, d: DictObject, q: seq<Key>)
    requires Shaped(h) && d in h && Follow(h, d, q).Some?
    ensures Follow(h, d, q).value in h && Follow(h, d, q).value.path == d.path + q
    decreases |q|
  {
    if q != [] {
      ChildDeeper(h, d, q[0]);
      FollowPath(h, h[d][q[0]].d, q[1..]);
      assert q == [q[0]] + q[1..];
    }
  }

  lemma {:induction false} FollowOn(h: Heap, d: DictObject, q: seq<Key>, k: Key)
    requires Shaped(h) && d in h && Follow(h, d, q).Some?
    ensures var t := Follow(h, d, q).value;
            Follow(h, d, q + [k]) ==
            if t in h && k in h[t] && h[t][k].Sub? then Some(h[t][k].d) else None
    decreases |q|
  {
    if q != [] {
      FollowPath(h, d, q);
      FollowOn(h, h[d][q[0]].d, q[1..], k);
      assert (q + [k])[1..] == q[1..] + [k];
    } else {
      assert ([k])[1..] == [];
    }
  }

  /** h' is h after writing cell c under key k of t; dictionaries may have been added. */
  ghost predicate Written(h: Heap, h': Heap, t: DictObject, k: Key, c: Cell) {
    && Shaped(h) && Shaped(h')
    && t in h && t in h' && h'[t] == h[t][k := c]
    && (forall x :: x in h && x != t ==> x in h' && h'[x] == h[x])
    && (c.Sub? ==> c.d in h')
  }

  /** Trees that hang beside the path to t do not see the write. */
  lemma {:induction false} BesideUnchanged(h: Heap, h': Heap, d: DictObject, t: DictObject, k: Key, c: Cell, s: Key)
    requires Written(h, h', t, k, c) && d in h && s in h[d]
    requires d.path <= t.path && (d.path == t.path || t.path[|d.path|] != s)
    ensures h[d][s].Sub? ==> h[d][s].d in h && h[d][s].d in h'
    ensures CellView(h', h[d][s]) == CellView(h, h[d][s])
  {
    if h[d][s].Sub? {
      var e := h[d][s].d;
      ChildDeeper(h, d, s);
      assert !(e.path <= t.path);
      Untouched(h, t);
      ViewUnchanged(h, h', e, set x | x in h && x.path <= t.path);
    }
  }

  lemma EntryChanged(h: Heap, h': Heap, d: DictObject, k: Key)
    requires Shaped(h) && Shaped(h') && d in h && d in h' && k in h'[d]
    requires h'[d].Keys == h[d].Keys + {k}
    requires forall s :: s in h[d] && s != k ==> h'[d][s] == h[d][s]
    requires forall s :: s in h[d] && s != k ==> ViewOf(h', d)[s] == ViewOf(h, d)[s]
    ensures ViewOf(h', d) == ViewOf(h, d)[k := CellView(h', h'[d][k])]
  {
  }

  /** One write into the dictionary at the end of a path is a SetPath seen from the start of it. */
  lemma {:induction false} WriteView(h: Heap, h': Heap, d: DictObject, t: DictObject, p: seq<Key>, c: Cell)
    requires d in h && p != [] && Written(h, h', t, p[|p|-1], c)
    requires Follow(h, d, p[..|p|-1]) == Some(t)
    ensures d in h' && ViewOf(h', d) == SetPath(ViewOf(h, d), p, CellView(h', c))
    decreases |p|
  {
    FollowPath(h, d, p[..|p|-1]);
    forall s | s in h[d] && s != p[0] ensures ViewOf(h', d)[s] == ViewOf(h, d)[s] {
      BesideUnchanged(h, h', d, t, p[|p|-1], c, s);
    }
    EntryChanged(h, h', d, p[0]);
    if |p| > 1 {
      ChildDeeper(h, d, p[0]);
      assert p[..|p|-1][1..] == p[1..][..|p|-2];
      WriteView(h, h', h[d][p[0]].d, t, p[1..], c);
    }
  }

  lemma Untouched(h: Heap, t: DictObject)
    requires Shaped(h)
    ensures forall x, k :: x in h && !(x.path <= t.path) && k in h[x] && h[x][k].Sub? ==> !(h[x][k].d.path <= t.path)
  {
    forall x, k | x in h && !(x.path <= t.path) && k in h[x] && h[x][k].Sub?
      ensures !(h[x][k].d.path <= t.path)
    {
      ChildDeeper(h, x, k);
    }
  }

  // ---------- The two facts about SetPath the cursor relies on ----------

  predicate DictAt(m: map<Key, Tree>, q: seq<Key>)
    decreases |q|
  {
    q == [] || (HasDict(m, q[0]) && DictAt(m[q[0]].m, q[1..]))
  }

  /** Putting an empty dictionary where a path has none does not change what a write at the path gives. */
  lemma {:induction false} EmptyDictFirst(m: map<Key, Tree>, p: seq<Key>, n: nat, v: Tree)
    requires 0 < n < |p| && !DictAt(m, p[..n])
    ensures SetPath(SetPath(m, p[..n], Dict(map[])), p, v) == SetPath(m, p, v)
    decreases n
  {
    var q := p[..n];
    if n > 1 {
      var child := if HasDict(m, p[0]) then m[p[0]].m else map[];
      assert q[1..] == p[1..][..n-1];
      EmptyDictFirst(child, p[1..], n - 1, v);
    }
  }

  lemma {:induction false} FollowSeesDict(h: Heap, d: DictObject, q: seq<Key>)
    requires Shaped(h) && d in h
    ensures Follow(h, d, q).Some? <==> DictAt(ViewOf(h, d), q)
    decreases |q|
  {
    if q != [] && q[0] in h[d] && h[d][q[0]].Sub? {
      ChildDeeper(h, d, q[0]);
      FollowSeesDict(h, h[d][q[0]].d, q[1..]);
    }
  }

  /** The path to the written dictionary stays the same. */
  lemma {:induction false} FollowKept(h: Heap, h': Heap, d: DictObject, q: seq<Key>, t: DictObject, k: Key, c: Cell)
    requires d in h && Written(h, h', t, k, c) && Follow(h, d, q) == Some(t)
    ensures d in h' && Follow(h', d, q) == Some(t)
    decreases |q|
  {
    FollowPath(h, d, q);
    if q != [] {
      assert d != t;
      ChildDeeper(h, d, q[0]);
      FollowKept(h, h', h[d][q[0]].d, q[1..], t, k, c);
    }
  }

  /** The cursor moves into a fresh empty dictionary. */
  lemma NewDictStep(h: Heap, h': Heap, root: DictObject, t: DictObject, parts: seq<Key>, i: nat, e: DictObject, v: Tree)
    requires root in h && i < |parts| - 1 && Written(h, h', t, parts[i], Sub(e))
    requires Follow(h, root, parts[..i]) == Some(t) && !(parts[i] in h[t] && h[t][parts[i]].Sub?)
    requires ViewOf(h', e) == map[]
    ensures root in h' && Follow(h', root, parts[..i+1]) == Some(e)
    ensures SetPath(ViewOf(h', root), parts, v) == SetPath(ViewOf(h, root), parts, v)
  {
    var q := parts[..i+1];
    assert q == parts[..i] + [parts[i]] && q[..|q|-1] == parts[..i];
    FollowKept(h, h', root, parts[..i], t, parts[i], Sub(e));
    FollowOn(h, root, parts[..i], parts[i]);
    FollowOn(h', root, parts[..i], parts[i]);
    FollowSeesDict(h, root, q);
    EmptyDictFirst(ViewOf(h, root), parts, i + 1, v);
    WriteView(h, h', root, t, q, Sub(e));
  }

  /** h with the dictionaries of `added` hung under key k of t. */
  ghost function Hung(h: Heap, added: Heap, t: DictObject, k: Key, c: Cell): Heap
    requires t in h
  {
    (h + added)[t := h[t][k := c]]
  }

  lemma HungWritten(h: Heap, added: Heap, t: DictObject, k: Key, c: Cell)
    requires t in h && Shaped(h) && Shaped(added) && h.Keys !! added.Keys
    requires c.Sub? ==> c.d in added && c.d.path == t.path + [k]
    ensures Written(h, Hung(h, added, t, k, c), t, k, c)
    ensures CellView(Hung(h, added, t, k, c), c) == CellView(added, c)
  {
    var h': Heap := Hung(h, added, t, k, c);
    forall d: DictObject, s: Key | d in h' && s in h'[d] && h'[d][s].Sub?
      ensures h'[d][s].d in h' && h'[d][s].d.path == d.path + [s]
    {
      if d == t {
        if s != k { ChildDeeper(h, t, s); }
      } else if d in h {
        ChildDeeper(h, d, s);
      } else {
        ChildDeeper(added, d, s);
      }
    }
    if c.Sub? { ViewUnchanged(added, h', c.d, {}); }
  }

  // ---------- The code ----------

  /** The dictionaries of one tree, and its root. */
  ghost predicate IsTree(nodes: set<DictObject>, root: DictObject)
    reads nodes
  {
    root in nodes && Shaped(Snap(nodes))
  }

  /** copy.deepcopy of a value. */
  method Copy(value: Raw, ghost path: seq<Key>) returns (c: Cell, ghost nodes: set<DictObject>)
    ensures fresh(nodes) && Shaped(Snap(nodes))
    ensures c.Sub? ==> c.d in nodes && c.d.path == path
    ensures CellView(Snap(nodes), c) == Freeze(value)
    decreases value
  {
    if value.RawLeaf? {
      c, nodes := Val(value.v), {};
    } else {
      var o := new DictObject(path);
      nodes := {o};
      for i := 0 to |value.items|
        invariant fresh(nodes) && o in nodes && o.path == path && Shaped(Snap(nodes))
        invariant ViewOf(Snap(nodes), o) == FreezeItems(value, i)
      {
        var e := value.items[i];
        ghost var h := Snap(nodes);
        var sub, added := Copy(e.value, path + [e.key]);
        nodes := Hang(o, e.key, sub, nodes, added);
        WriteView(h, Snap(nodes), o, o, [e.key], sub);
      }
      c := Sub(o);
    }
  }

  /** target[key] = cell, where cell brings its own fresh dictionaries. */
  method Hang(target: DictObject, key: Key, cell: Cell, ghost nodes: set<DictObject>, ghost added: set<DictObject>)
    returns (ghost all: set<DictObject>)
    requires target in nodes && Shaped(Snap(nodes)) && Shaped(Snap(added)) && nodes !! added
    requires cell.Sub? ==> cell.d in added && cell.d.path == target.path + [key]
    modifies target
    ensures all == nodes + added
    ensures Written(old(Snap(nodes)), Snap(all), target, key, cell)
    ensures CellView(Snap(all), cell) == old(CellView(Snap(added), cell))
  {
    ghost var h, hAdded := Snap(nodes), Snap(added);
    HungWritten(h, hAdded, target, key, cell);
    target.entries := target.entries[key := cell];
    all := nodes + added;
    assert Snap(all) == Hung(h, hAdded, target, key, cell);
  }

  /** One move of the cursor: into the dictionary under parts[i], created if there is none. */
  method Enter(root: DictObject, target: DictObject, parts: seq<Key>, i: nat, ghost nodes: set<DictObject>,
               ghost v: Tree)
    returns (next: DictObject, ghost all: set<DictObject>)
    requires IsTree(nodes, root) && i < |parts| - 1
    requires Follow(Snap(nodes), root, parts[..i]) == Some(target)
    modifies nodes
    ensures nodes <= all && fresh(all - nodes) && IsTree(all, root)
    ensures Follow(Snap(all), root, parts[..i+1]) == Some(next)
    ensures SetPath(ViewOf(Snap(all), root), parts, v) == SetPath(old(ViewOf(Snap(nodes), root)), parts, v)
  {
    ghost var h := Snap(nodes);
    FollowPath(h, root, parts[..i]);
    var part := parts[i];
    if part in target.entries && target.entries[part].Sub? {
      all := nodes;
      assert parts[..i+1] == parts[..i] + [part];
      FollowOn(h, root, parts[..i], part);
      ChildDeeper(h, target, part);
      next := target.entries[part].d;
    } else {
      next := new DictObject(target.path + [part]);
      all := Hang(target, part, Sub(next), nodes, {next});
      NewDictStep(h, Snap(all), root, target, parts, i, next, v);
    }
  }

  /** The cursor loop for one dotted key and the write at its end. */
  method Assign(root: DictObject, parts: seq<Key>, value: Raw, ghost nodes: set<DictObject>)
    returns (ghost all: set<DictObject>)
    requires parts != [] && IsTree(nodes, root)
    modifies nodes
    ensures nodes <= all && fresh(all - nodes) && IsTree(all, root)
    ensures ViewOf(Snap(all), root) == SetPath(old(ViewOf(Snap(nodes), root)), parts, Freeze(value))
  {
    ghost var before, v := ViewOf(Snap(nodes), root), Freeze(value);
    all := nodes;
    var target := root;
    for i := 0 to |parts| - 1
      invariant nodes <= all && fresh(all - nodes) && IsTree(all, root)
      invariant Follow(Snap(all), root, parts[..i]) == Some(target)
      invariant SetPath(ViewOf(Snap(all), root), parts, v) == SetPath(before, parts, v)
    {
      target, all := Enter(root, target, parts, i, all, v);
    }
    ghost var h := Snap(all);
    FollowPath(h, root, parts[..|parts|-1]);
    var cell, added := Copy(value, target.path + [parts[|parts|-1]]);
    all := Hang(target, parts[|parts|-1], cell, all, added);
    WriteView(h, Snap(all), root, target, parts, cell);
  }

  /** _normalize, building fresh dictionaries with a cursor: what it returns is the fold of SetPath.
      The deepcopy of an already fresh nested result is not repeated. */
  method Normalize(options: Raw, ghost base: seq<Key>) returns (r: Option<DictObject>, ghost nodes: set<DictObject>)
    requires options.RawDict?
    ensures fresh(nodes)
    ensures r.Some? ==> IsTree(nodes, r.value) && r.value.path == base
    ensures NormalizeItems(options, |options.items|) ==
            if r.None? then None else Some(ViewOf(Snap(nodes), r.value))
    decreases options, 1
  {
    var root := new DictObject(base);
    nodes := {root};
    assert ViewOf(Snap(nodes), root) == map[];
    var ok;
    ok, nodes := NormalizeOptions(root, options, nodes);
    r := if ok then Some(root) else None;
  }

  /** The loop over the options, from an empty dictionary. */
  method NormalizeOptions(root: DictObject, options: Raw, ghost nodes: set<DictObject>)
    returns (ok: bool, ghost all: set<DictObject>)
    requires options.RawDict? && IsTree(nodes, root) && ViewOf(Snap(nodes), root) == map[]
    modifies nodes
    ensures nodes <= all && fresh(all - nodes) && IsTree(all, root)
    ensures NormalizeItems(options, |options.items|) == if ok then Some(ViewOf(Snap(all), root)) else None
    decreases options, 0, 1
  {
    var i := 0;
    ok, all := true, nodes;
    while ok && i < |options.items|
      invariant 0 <= i <= |options.items|
      invariant nodes <= all && fresh(all - nodes) && Folded(root, options, i, ok, all)
    {
      ok, all := NormalizeNext(root, options, i, all);
      i := i + 1;
    }
    if !ok { NoneStays(options, i, |options.items|); }
  }

  /** The tree at root is what the first i options fold to, unless one of them failed. */
  ghost predicate Folded(root: DictObject, options: Raw, i: nat, ok: bool, nodes: set<DictObject>)
    requires options.RawDict? && i <= |options.items|
    reads nodes
  {
    IsTree(nodes, root) && NormalizeItems(options, i) == if ok then Some(ViewOf(Snap(nodes), root)) else None
  }

  /** Option i moves the fold on by one step. */
  method NormalizeNext(root: DictObject, options: Raw, i: nat, ghost nodes: set<DictObject>)
    returns (ok: bool, ghost all: set<DictObject>)
    requires options.RawDict? && i < |options.items| && Folded(root, options, i, true, nodes)
    modifies nodes
    ensures nodes <= all && fresh(all - nodes) && Folded(root, options, i + 1, ok, all)
    decreases options, 0, 0
  {
    FoldStep(options, i, ViewOf(Snap(nodes), root));
    ok, all := NormalizeOption(root, options.items[i], nodes);
  }

  /** The loop body: one option. */
  method NormalizeOption(root: DictObject, e: Entry, ghost nodes: set<DictObject>)
    returns (ok: bool, ghost all: set<DictObject>)
    requires IsTree(nodes, root)
    modifies nodes
    ensures nodes <= all && fresh(all - nodes) && IsTree(all, root)
    ensures ok <==> PathOf(e.key) != [] && NormalizeValue(e.key, e.value).Some?
    ensures ok ==> ViewOf(Snap(all), root) ==
                   SetPath(old(ViewOf(Snap(nodes), root)), PathOf(e.key), NormalizeValue(e.key, e.value).value)
    decreases e
  {
    all := nodes;
    ghost var h := Snap(nodes);
    if !Dotted(e.key) {
      var cell := Val(Null);
      ghost var added: set<DictObject> := {};
      if e.value.RawDict? {
        var sub, subNodes := Normalize(e.value, root.path + [e.key]);
        if sub.None? { return false, all; }
        cell := Sub(sub.value);
        added := subNodes;
      } else {
        cell := Val(e.value.v);
      }
      all := Hang(root, e.key, cell, nodes, added);
      WriteView(h, Snap(all), root, root, [e.key], cell);
    } else {
      var parts := PathOf(e.key);
      if parts == [] { return false, all; }
      all := Assign(root, parts, e.value, nodes);
    }
    ok := true;
  }

  lemma FoldStep(r: Raw, i: nat, m: map<Key, Tree>)
    requires r.RawDict? && i < |r.items| && NormalizeItems(r, i) == Some(m)
    ensures var e := r.items[i];
            NormalizeItems(r, i + 1) ==
            if PathOf(e.key) != [] && NormalizeValue(e.key, e.value).Some?
            then Some(SetPath(m, PathOf(e.key), NormalizeValue(e.key, e.value).value)) else None
  {
  }

  lemma {:induction false} NoneStays(r: Raw, i: nat, n: nat)
    requires r.RawDict? && i <= n <= |r.items| && NormalizeItems(r, i).None?
    ensures NormalizeItems(r, n).None?
    decreases n
  {
    if i < n { NoneStays(r, i, n - 1); }
  }

  // ---------- _merge ----------

  /** A Python dict never holds the same key twice. */
  predicate KeysDistinct(r: Raw)
    decreases r
  {
    r.RawDict? ==>
      && (forall i, j :: 0 <= i < j < |r.items| ==> r.items[i].key != r.items[j].key)
      && (forall i :: 0 <= i < |r.items| ==> KeysDistinct(r.items[i].value))
  }

  lemma {:induction false} NotYetSeen(r: Raw, n: nat, k: Key)
    requires r.RawDict? && n <= |r.items| && forall i :: 0 <= i < n ==> r.items[i].key != k
    ensures k !in FreezeItems(r, n)
  {
    if n > 0 { NotYetSeen(r, n - 1, k); }
  }

  /** Merging one more key only changes that key. */
  lemma MergeStep(a: map<Key, Tree>, b: map<Key, Tree>, k: Key, v: Tree)
    requires k !in b
    ensures ConfigMerge.Merge(a, b[k := v]) ==
            ConfigMerge.Merge(a, b)[k := if v.Dict? && HasDict(a, k) then Dict(ConfigMerge.Merge(a[k].m, v.m)) else v]
    ensures HasDict(ConfigMerge.Merge(a, b), k) <==> HasDict(a, k)
    ensures HasDict(a, k) ==> ConfigMerge.Merge(a, b)[k] == a[k]
  {
  }

  /** Changes confined to one child's subtree. */
  lemma SubtreeView(h: Heap, h': Heap, d: DictObject, k: Key)
    requires Shaped(h) && Shaped(h') && d in h && k in h[d] && h[d][k].Sub?
    requires forall x :: x in h && !(d.path + [k] <= x.path) ==> x in h' && h'[x] == h[x]
    requires h[d][k].d in h'
    ensures d in h' && h'[d] == h[d]
    ensures ViewOf(h', d) == ViewOf(h, d)[k := Dict(ViewOf(h', h[d][k].d))]
  {
    assert !(d.path + [k] <= d.path);
    forall s | s in h[d] && s != k ensures ViewOf(h', d)[s] == ViewOf(h, d)[s] {
      if h[d][s].Sub? {
        var e := h[d][s].d;
        ChildDeeper(h, d, s);
        var touched := set x | x in h && !(e.path <= x.path);
        forall x | x in h && e.path <= x.path ensures !(d.path + [k] <= x.path) {
          assert x.path[|d.path|] == s;
        }
        forall x: DictObject, y: Key | x in h && e.path <= x.path && y in h[x] && h[x][y].Sub?
          ensures e.path <= h[x][y].d.path
        {
          ChildDeeper(h, x, y);
        }
        ViewUnchanged(h, h', e, touched);
      }
    }
    EntryChanged(h, h', d, k);
  }

  /** _merge(target, source), in place: the tree at target becomes the merge of the two, and nothing
      that hangs elsewhere changes. */
  method Merge(target: DictObject, source: Raw, ghost nodes: set<DictObject>) returns (ghost all: set<DictObject>)
    requires target in nodes && Shaped(Snap(nodes)) && source.RawDict? && KeysDistinct(source)
    modifies nodes
    ensures nodes <= all && fresh(all - nodes) && Shaped(Snap(all))
    ensures ViewOf(Snap(all), target) ==
            ConfigMerge.Merge(old(ViewOf(Snap(nodes), target)), FreezeItems(source, |source.items|))
    ensures forall x :: x in nodes && !(target.path <= x.path) ==> x.entries == old(x.entries)
    decreases source
  {
    ghost var a := ViewOf(Snap(nodes), target);
    all := nodes;
    for i := 0 to |source.items|
      invariant nodes <= all && fresh(all - nodes) && Shaped(Snap(all))
      invariant ViewOf(Snap(all), target) == ConfigMerge.Merge(a, FreezeItems(source, i))
      invariant forall x :: x in nodes && !(target.path <= x.path) ==> x.entries == old(x.entries)
    {
      var e := source.items[i];
      NotYetSeen(source, i, e.key);
      MergeStep(a, FreezeItems(source, i), e.key, Freeze(e.value));
      all := MergeOption(target, e, all);
    }
  }

  /** The loop body: merge into the dictionary already there, or replace. */
  method MergeOption(target: DictObject, e: Entry, ghost nodes: set<DictObject>) returns (ghost all: set<DictObject>)
    requires target in nodes && Shaped(Snap(nodes)) && KeysDistinct(e.value)
    modifies nodes
    ensures nodes <= all && fresh(all - nodes) && Shaped(Snap(all))
    ensures var m, v := old(ViewOf(Snap(nodes), target)), Freeze(e.value);
            ViewOf(Snap(all), target) ==
            m[e.key := if v.Dict? && HasDict(m, e.key) then Dict(ConfigMerge.Merge(m[e.key].m, v.m)) else v]
    ensures forall x :: x in nodes && !(target.path <= x.path) ==> x.entries == old(x.entries)
    decreases e
  {
    ghost var h := Snap(nodes);
    if e.value.RawDict? && e.key in target.entries && target.entries[e.key].Sub? {
      var child := target.entries[e.key].d;
      ChildDeeper(h, target, e.key);
      all := Merge(child, e.value, nodes);
      SubtreeView(h, Snap(all), target, e.key);
    } else {
      var cell, added := Copy(e.value, target.path + [e.key]);
      all := Hang(target, e.key, cell, nodes, added);
      WriteView(h, Snap(all), target, target, [e.key], cell);
    }
  }
}
