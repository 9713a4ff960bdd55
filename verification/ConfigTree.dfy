// MongoDB configuration trees on values: what normalising, sanitising and merging mean
// (service.py, MongoConfigurationManager). The dictionaries the code mutates are in ConfigHeap.dfy.

module ConfigTree {
  import opened Options

  // YAML keys are text or, rarely, something else; only text can be dotted.
  datatype Key = Text(s: string) | NonText(n: int)

  datatype Scalar = Str(s: string) | Num(r: real) | Null

  /** A dictionary as it arrives: keys in insertion order. */
  datatype Raw = RawLeaf(v: Scalar) | RawDict(items: seq<Entry>)

  datatype Entry = Entry(key: Key, value: Raw)

  /** A dictionary as a value: order does not matter. */
  datatype Tree = Leaf(v: Scalar) | Dict(m: map<Key, Tree>)

  predicate Dotted(k: Key) { k.Text? && '.' in k.s }

  /** The non-empty parts between dots. */
  function Parts(s: string, n: nat, word: string): (r: seq<Key>)
    requires n <= |s| && '.' !in word
    ensures forall k :: k in r ==> !Dotted(k)
    decreases |s| - n
  {
    var done := if word == "" then [] else [Text(word)];
    if n == |s| then done
    else if s[n] == '.' then done + Parts(s, n + 1, "")
    else Parts(s, n + 1, word + [s[n]])
  }

  /** Where an option is written; empty for a key made of dots only. */
  function PathOf(k: Key): (p: seq<Key>)
    ensures forall x :: x in p ==> !Dotted(x)
  {
    if Dotted(k) then Parts(k.s, 0, "") else [k]
  }

  function SetPath(m: map<Key, Tree>, p: seq<Key>, v: Tree): map<Key, Tree>
    requires p != []
    decreases |p|
  {
    if |p| == 1 then m[p[0] := v]
    else
      var child := if p[0] in m && m[p[0]].Dict? then m[p[0]].m else map[];
      m[p[0] := Dict(SetPath(child, p[1..], v))]
  }

  /** deepcopy: the same dictionary, keys untouched. */
  function Freeze(r: Raw): Tree
    decreases r, 1
  {
    if r.RawLeaf? then Leaf(r.v) else Dict(FreezeItems(r, |r.items|))
  }

  function FreezeItems(r: Raw, n: nat): map<Key, Tree>
    requires r.RawDict? && n <= |r.items|
    decreases r, 0, n
  {
    if n == 0 then map[]
    else FreezeItems(r, n - 1)[r.items[n-1].key := Freeze(r.items[n-1].value)]
  }

  /** The simple form of _normalize: a left fold of SetPath over the options in order. None stands
      for the IndexError raised by a key without a non-empty part. */
  function NormalizeItems(r: Raw, n: nat): Option<map<Key, Tree>>
    requires r.RawDict? && n <= |r.items|
    decreases r, 0, n
  {
    if n == 0 then Some(map[])
    else
      var e := r.items[n-1];
      var before := NormalizeItems(r, n - 1);
      var v := NormalizeValue(e.key, e.value);
      if before.None? || v.None? || PathOf(e.key) == [] then None
      else Some(SetPath(before.value, PathOf(e.key), v.value))
  }

  /** Values under plain keys are normalised, values under dotted keys are copied as they are. */
  function NormalizeValue(k: Key, r: Raw): Option<Tree>
    decreases r, 1
  {
    if r.RawDict? && !Dotted(k) then
      var m := NormalizeItems(r, |r.items|);
      if m.None? then None else Some(Dict(m.value))
    else Some(Freeze(r))
  }

  // ---------- Sanitising ----------

  const STORAGE := Text("storage")
  const JOURNAL := Text("journal")
  const MMAPV1 := Text("mmapv1")
  const ENABLED := Text("enabled")
  const SYSTEM_LOG := Text("systemLog")
  const DESTINATION := Text("destination")

  predicate HasDict(m: map<Key, Tree>, k: Key) { k in m && m[k].Dict? }

  function Put(m: map<Key, Tree>, k: Key, sub: map<Key, Tree>): map<Key, Tree> {
    if sub == map[] then m - {k} else m[k := Dict(sub)]
  }

  function SanitizeStorage(storage: map<Key, Tree>): map<Key, Tree> {
    var s := storage - {MMAPV1};
    if HasDict(s, JOURNAL) then Put(s, JOURNAL, s[JOURNAL].m - {ENABLED}) else s
  }

  function Sanitize(m: map<Key, Tree>): map<Key, Tree> {
    var m1 := if HasDict(m, STORAGE) then Put(m, STORAGE, SanitizeStorage(m[STORAGE].m)) else m;
    if HasDict(m1, SYSTEM_LOG) && DESTINATION in m1[SYSTEM_LOG].m
       && m1[SYSTEM_LOG].m[DESTINATION] == Leaf(Str("stderr"))
    then Put(m1, SYSTEM_LOG, m1[SYSTEM_LOG].m - {DESTINATION})
    else m1
  }

  /** MongoConfigurationManager.normalize. */
  function Normalize(r: Raw): Option<map<Key, Tree>>
    requires r.RawDict?
  {
    var m := NormalizeItems(r, |r.items|);
    if m.None? then None else Some(Sanitize(m.value))
  }

  // ---------- When a second pass changes nothing ----------

  /** No dotted key at any depth. */
  predicate Clean(t: Tree) {
    t.Dict? ==> forall k :: k in t.m ==> !Dotted(k) && Clean(t.m[k])
  }

  /** r is t written down in some key order. */
  predicate Represents(r: Raw, t: Tree)
    decreases t
  {
    match t
    case Leaf(v) => r == RawLeaf(v)
    case Dict(m) =>
      && r.RawDict?
      && (forall i, j :: 0 <= i < j < |r.items| ==> r.items[i].key != r.items[j].key)
      && (forall i :: 0 <= i < |r.items| ==> r.items[i].key in m)
      && (forall k :: k in m ==>
           exists i :: 0 <= i < |r.items| && r.items[i].key == k && Represents(r.items[i].value, m[k]))
  }

  function KeysUpTo(r: Raw, n: nat): set<Key>
    requires r.RawDict? && n <= |r.items|
  {
    if n == 0 then {} else KeysUpTo(r, n - 1) + {r.items[n-1].key}
  }

  lemma {:induction false} KeysUpToAre(r: Raw, n: nat)
    requires r.RawDict? && n <= |r.items|
    ensures forall k :: k in KeysUpTo(r, n) <==> exists i :: 0 <= i < n && r.items[i].key == k
  {
    if n > 0 { KeysUpToAre(r, n - 1); }
  }

  lemma ItemRepresents(r: Raw, t: Tree, i: nat)
    requires t.Dict? && Represents(r, t) && i < |r.items|
    ensures r.items[i].key in t.m && Represents(r.items[i].value, t.m[r.items[i].key])
  {
    var j :| 0 <= j < |r.items| && r.items[j].key == r.items[i].key
        && Represents(r.items[j].value, t.m[r.items[i].key]);
  }

  lemma RepresentedKeys(r: Raw, t: Tree)
    requires t.Dict? && Represents(r, t)
    ensures KeysUpTo(r, |r.items|) == t.m.Keys
  {
    KeysUpToAre(r, |r.items|);
  }

  /** s is t with some keys left out, at any depth. */
  predicate Below(s: Tree, t: Tree)
    decreases s
  {
    if s.Leaf? || t.Leaf? then s == t
    else forall k :: k in s.m ==> k in t.m && Below(s.m[k], t.m[k])
  }

  lemma {:induction false} BelowReflexive(t: Tree)
    ensures Below(t, t)
  {
    if t.Dict? {
      forall k | k in t.m { BelowReflexive(t.m[k]); }
    }
  }

  lemma {:induction false} BelowClean(s: Tree, t: Tree)
    requires Below(s, t) && Clean(t)
    ensures Clean(s)
  {
    if s.Dict? {
      forall k | k in s.m ensures !Dotted(k) && Clean(s.m[k]) { BelowClean(s.m[k], t.m[k]); }
    }
  }

  lemma {:induction false} NormalizedKeysPlain(r: Raw, n: nat)
    requires r.RawDict? && n <= |r.items| && NormalizeItems(r, n).Some?
    ensures forall k :: k in NormalizeItems(r, n).value ==> !Dotted(k)
  {
    if n > 0 {
      NormalizedKeysPlain(r, n - 1);
      var p := PathOf(r.items[n-1].key);
      assert p[0] in p;
    }
  }

  predicate PlainKeys(r: Raw)
    requires r.RawDict?
  {
    && (forall i :: 0 <= i < |r.items| ==> !Dotted(r.items[i].key))
    && (forall i, j :: 0 <= i < j < |r.items| ==> r.items[i].key != r.items[j].key)
  }

  /** Without dotted keys the loop only normalises each value in place. */
  lemma {:induction false} PlainPass(r: Raw, n: nat, i: nat)
    requires r.RawDict? && PlainKeys(r) && i < n <= |r.items| && NormalizeItems(r, n).Some?
    ensures var m, e := NormalizeItems(r, n).value, r.items[i];
            e.key in m && NormalizeValue(e.key, e.value) == Some(m[e.key])
  {
    if i < n - 1 { PlainPass(r, n - 1, i); }
  }

  lemma {:induction false} PlainPassKeys(r: Raw, n: nat)
    requires r.RawDict? && PlainKeys(r) && n <= |r.items| && NormalizeItems(r, n).Some?
    ensures NormalizeItems(r, n).value.Keys == KeysUpTo(r, n)
  {
    if n > 0 { PlainPassKeys(r, n - 1); }
  }

  lemma SamePass(r: Raw, t: Tree, m: map<Key, Tree>)
    requires r.RawDict? && t.Dict? && KeysUpTo(r, |r.items|) == t.m.Keys && PlainKeys(r)
             && NormalizeItems(r, |r.items|) == Some(m)
    requires forall i :: 0 <= i < |r.items| ==>
               r.items[i].key in t.m && NormalizeValue(r.items[i].key, r.items[i].value) == Some(t.m[r.items[i].key])
    ensures m == t.m
  {
    PlainPassKeys(r, |r.items|);
    KeysUpToAre(r, |r.items|);
    forall k | k in t.m ensures k in m && m[k] == t.m[k] {
      var i :| 0 <= i < |r.items| && r.items[i].key == k;
      PlainPass(r, |r.items|, i);
    }
  }

  lemma {:induction false} PlainPassSome(r: Raw, n: nat)
    requires r.RawDict? && PlainKeys(r) && n <= |r.items|
    requires forall i :: 0 <= i < n ==> NormalizeValue(r.items[i].key, r.items[i].value).Some?
    ensures NormalizeItems(r, n).Some?
  {
    if n > 0 { PlainPassSome(r, n - 1); }
  }

  lemma {:induction false} CleanIsFixed(r: Raw, t: Tree)
    requires t.Dict? && Represents(r, t) && Clean(t)
    ensures NormalizeItems(r, |r.items|) == Some(t.m)
    decreases t
  {
    forall i | 0 <= i < |r.items|
      ensures NormalizeValue(r.items[i].key, r.items[i].value) == Some(t.m[r.items[i].key])
    {
      CleanValueIsFixed(r, t, i);
    }
    PlainPassSome(r, |r.items|);
    RepresentedKeys(r, t);
    SamePass(r, t, NormalizeItems(r, |r.items|).value);
  }

  lemma {:induction false} CleanValueIsFixed(r: Raw, t: Tree, i: nat)
    requires t.Dict? && Represents(r, t) && Clean(t) && i < |r.items|
    ensures NormalizeValue(r.items[i].key, r.items[i].value) == Some(t.m[r.items[i].key])
    decreases t, 0
  {
    var e := r.items[i];
    ItemRepresents(r, t, i);
    if t.m[e.key].Dict? { CleanIsFixed(e.value, t.m[e.key]); }
  }

  /** Even when the pass only has to give t back after dropping keys, t must be clean. */
  lemma {:induction false} FixedIsClean(r: Raw, t: Tree)
    requires t.Dict? && Represents(r, t) && NormalizeItems(r, |r.items|).Some?
    requires Below(t, Dict(NormalizeItems(r, |r.items|).value))
    ensures Clean(t)
    decreases t
  {
    NormalizedKeysPlain(r, |r.items|);
    forall k | k in t.m ensures !Dotted(k) && Clean(t.m[k]) {
      var i :| 0 <= i < |r.items| && r.items[i].key == k && Represents(r.items[i].value, t.m[k]);
      PlainPass(r, |r.items|, i);
      if t.m[k].Dict? { FixedIsClean(r.items[i].value, t.m[k]); }
    }
  }

  lemma SanitizeBelow(m: map<Key, Tree>)
    ensures Below(Dict(Sanitize(m)), Dict(m))
  {
    forall k | k in Sanitize(m) ensures k in m && Below(Sanitize(m)[k], m[k]) {
      BelowReflexive(m[k]);
      if k == STORAGE && HasDict(m, k) { SanitizeStorageBelow(m[k].m); }
    }
  }

  lemma SanitizeStorageBelow(s: map<Key, Tree>)
    ensures Below(Dict(SanitizeStorage(s)), Dict(s))
  {
    BelowReflexive(Dict(s));
    if HasDict(s, JOURNAL) { BelowReflexive(s[JOURNAL]); }
  }

  lemma SanitizeTwice(m: map<Key, Tree>)
    ensures Sanitize(Sanitize(m)) == Sanitize(m)
  {
    var s := Sanitize(m);
    assert STORAGE != SYSTEM_LOG by { assert "storage"[1] != "systemLog"[1]; }
    if HasDict(m, STORAGE) { SanitizeStorageTwice(m[STORAGE].m); }
    if HasDict(s, STORAGE) {
      assert SanitizeStorage(s[STORAGE].m) == s[STORAGE].m;
      assert Put(s, STORAGE, s[STORAGE].m) == s;
    }
  }

  lemma SanitizeStorageTwice(s: map<Key, Tree>)
    ensures SanitizeStorage(SanitizeStorage(s)) == SanitizeStorage(s)
  {
    assert MMAPV1 != JOURNAL by { assert "mmapv1"[0] != "journal"[0]; }
    var t := SanitizeStorage(s);
    assert t - {MMAPV1} == t;
    if HasDict(t, JOURNAL) {
      var j := t[JOURNAL].m;
      assert j - {ENABLED} == j;
      assert Put(t, JOURNAL, j) == t;
    }
  }

  // ---------- Exactly when normalising leaves a dotted key behind ----------

  /** Following p leads to a dictionary that holds a dotted key. */
  predicate DirtyAt(t: Tree, p: seq<Key>)
    decreases |p|
  {
    && t.Dict?
    && if p == [] then exists k :: k in t.m && Dotted(k)
       else p[0] in t.m && DirtyAt(t.m[p[0]], p[1..])
  }

  lemma {:induction false} CleanNotDirty(t: Tree, p: seq<Key>)
    requires Clean(t)
    ensures !DirtyAt(t, p)
    decreases |p|
  {
    if t.Dict? && p != [] && p[0] in t.m { CleanNotDirty(t.m[p[0]], p[1..]); }
  }

  lemma {:induction false} CleanIffNowhereDirty(t: Tree)
    ensures Clean(t) <==> forall p :: !DirtyAt(t, p)
  {
    if t.Dict? {
      forall k | k in t.m { CleanIffNowhereDirty(t.m[k]); }
      if Clean(t) {
        forall p ensures !DirtyAt(t, p) { CleanNotDirty(t, p); }
      } else {
        var k :| k in t.m && (Dotted(k) || !Clean(t.m[k]));
        if Dotted(k) {
          assert DirtyAt(t, []);
        } else {
          var p :| DirtyAt(t.m[k], p);
          assert ([k] + p)[1..] == p;
          assert DirtyAt(t, [k] + p);
        }
      }
    }
  }

  lemma PrefixTails(w: seq<Key>, p: seq<Key>)
    requires w != [] && p != [] && p[0] == w[0]
    ensures w <= p <==> w[1..] <= p[1..]
    ensures w <= p ==> p[1..][|w[1..]|..] == p[|w|..]
  {
    assert w == [w[0]] + w[1..] && p == [p[0]] + p[1..];
  }

  /** What stands at a path, if anything does. */
  function At(t: Tree, p: seq<Key>): Option<Tree>
    decreases |p|
  {
    if p == [] then Some(t)
    else if t.Dict? && p[0] in t.m then At(t.m[p[0]], p[1..])
    else None
  }

  function DictAt(t: Tree, p: seq<Key>): map<Key, Tree> {
    var at := At(t, p);
    if at.Some? && at.value.Dict? then at.value.m else map[]
  }

  /** A write shows its value at and below its path, keeps the dictionaries above it apart from the write,
      and leaves every other path as it was. */
  lemma {:induction false} AtAfterWrite(m: map<Key, Tree>, w: seq<Key>, v: Tree, p: seq<Key>)
    requires w != []
    ensures At(Dict(SetPath(m, w, v)), p) ==
            if w <= p then At(v, p[|w|..])
            else if p <= w then Some(Dict(SetPath(DictAt(Dict(m), p), w[|p|..], v)))
            else At(Dict(m), p)
    decreases |w|
  {
    var after := SetPath(m, w, v);
    if p == [] {
      assert w[|p|..] == w;
    } else if p[0] != w[0] {
      assert p[0] in after <==> p[0] in m;
    } else {
      PrefixTails(w, p);
      PrefixTails(p, w);
      if |w| == 1 {
        assert p[1..] == p[|w|..];
        assert w <= p;
      } else {
        var child := if w[0] in m && m[w[0]].Dict? then m[w[0]].m else map[];
        AtAfterWrite(child, w[1..], v, p[1..]);
        assert after[w[0]] == Dict(SetPath(child, w[1..], v));
        ChildAt(m, w[0], child, p);
      }
    }
  }

  lemma ChildAt(m: map<Key, Tree>, k: Key, child: map<Key, Tree>, p: seq<Key>)
    requires p != [] && p[0] == k && child == if k in m && m[k].Dict? then m[k].m else map[]
    ensures DictAt(Dict(child), p[1..]) == DictAt(Dict(m), p)
    ensures |p| > 1 ==> At(Dict(child), p[1..]) == At(Dict(m), p)
  {
    var rest := p[1..];
    if rest == [] {
      assert At(Dict(child), rest) == Some(Dict(child));
      assert k in m ==> At(Dict(m), p) == Some(m[k]);
    } else {
      assert k in m ==> At(Dict(m), p) == At(m[k], rest);
    }
  }

  /** Seen through dotted keys: those below a write are its value's, the others stay where they were. */
  lemma {:induction false} DirtyAfterWrite(m: map<Key, Tree>, w: seq<Key>, v: Tree, p: seq<Key>)
    requires w != [] && forall k :: k in w ==> !Dotted(k)
    ensures DirtyAt(Dict(SetPath(m, w, v)), p) <==>
            if w <= p then DirtyAt(v, p[|w|..]) else DirtyAt(Dict(m), p)
    decreases |w|
  {
    var after := SetPath(m, w, v);
    if p == [] {
      SameKeysBut(m, w, v);
    } else if p[0] != w[0] {
      assert p[0] in after <==> p[0] in m;
    } else {
      PrefixTails(w, p);
      if |w| == 1 {
        assert p[1..] == p[|w|..];
      } else {
        var child := if w[0] in m && m[w[0]].Dict? then m[w[0]].m else map[];
        DirtyAfterWrite(child, w[1..], v, p[1..]);
        ChildDirty(m, w[0], child, p);
        assert after[w[0]] == Dict(SetPath(child, w[1..], v));
      }
    }
  }

  lemma ChildDirty(m: map<Key, Tree>, k: Key, child: map<Key, Tree>, p: seq<Key>)
    requires p != [] && p[0] == k && child == if k in m && m[k].Dict? then m[k].m else map[]
    ensures DirtyAt(Dict(child), p[1..]) <==> DirtyAt(Dict(m), p)
  {
  }

  lemma SameKeysBut(m: map<Key, Tree>, w: seq<Key>, v: Tree)
    requires w != [] && !Dotted(w[0])
    ensures (exists k :: k in SetPath(m, w, v) && Dotted(k)) <==> (exists k :: k in m && Dotted(k))
  {
    assert SetPath(m, w, v).Keys == m.Keys + {w[0]};
  }

  /** Option i brings a dotted key to p. */
  predicate Puts(r: Raw, i: nat, p: seq<Key>)
    requires r.RawDict? && i < |r.items|
  {
    var w, v := PathOf(r.items[i].key), NormalizeValue(r.items[i].key, r.items[i].value);
    w <= p && v.Some? && DirtyAt(v.value, p[|w|..])
  }

  /** Option i brought a dotted key to p and no later option wrote at or above p. */
  predicate Survives(r: Raw, n: nat, i: nat, p: seq<Key>)
    requires r.RawDict? && i < n <= |r.items|
  {
    Puts(r, i, p) && forall j :: i < j < n ==> !(PathOf(r.items[j].key) <= p)
  }

  /** Whether the last of the first n options that writes at or above p brings a dotted key there. */
  predicate LastPuts(r: Raw, n: nat, p: seq<Key>)
    requires r.RawDict? && n <= |r.items|
  {
    n > 0 && if PathOf(r.items[n-1].key) <= p then Puts(r, n - 1, p) else LastPuts(r, n - 1, p)
  }

  lemma {:induction false} LastPutsSurvives(r: Raw, n: nat, p: seq<Key>)
    requires r.RawDict? && n <= |r.items| && LastPuts(r, n, p)
    ensures exists i :: 0 <= i < n && Survives(r, n, i, p)
  {
    if PathOf(r.items[n-1].key) <= p {
      assert Survives(r, n, n - 1, p);
    } else {
      LastPutsSurvives(r, n - 1, p);
      var i :| 0 <= i < n - 1 && Survives(r, n - 1, i, p);
      StillSurvives(r, n, i, p);
    }
  }

  lemma StillSurvives(r: Raw, n: nat, i: nat, p: seq<Key>)
    requires r.RawDict? && i < n - 1 && n <= |r.items| && Survives(r, n - 1, i, p)
    requires !(PathOf(r.items[n-1].key) <= p)
    ensures Survives(r, n, i, p)
  {
  }

  lemma {:induction false} SurvivesLastPuts(r: Raw, n: nat, i: nat, p: seq<Key>)
    requires r.RawDict? && i < n <= |r.items| && Survives(r, n, i, p)
    ensures LastPuts(r, n, p)
  {
    if i < n - 1 { SurvivesLastPuts(r, n - 1, i, p); }
  }

  lemma {:induction false} LastWriterDecides(r: Raw, n: nat, p: seq<Key>)
    requires r.RawDict? && n <= |r.items| && NormalizeItems(r, n).Some?
    ensures DirtyAt(Dict(NormalizeItems(r, n).value), p) <==> LastPuts(r, n, p)
  {
    if n > 0 {
      var e := r.items[n-1];
      LastWriterDecides(r, n - 1, p);
      DirtyAfterWrite(NormalizeItems(r, n - 1).value, PathOf(e.key), NormalizeValue(e.key, e.value).value, p);
    }
  }

  /** The result is free of dotted keys exactly when every one that a value brought in was overwritten. */
  lemma NormalizedCleanIff(r: Raw)
    requires r.RawDict? && NormalizeItems(r, |r.items|).Some?
    ensures Clean(Dict(NormalizeItems(r, |r.items|).value)) <==>
            !exists i, p :: 0 <= i < |r.items| && Survives(r, |r.items|, i, p)
  {
    var t, n := Dict(NormalizeItems(r, |r.items|).value), |r.items|;
    CleanIffNowhereDirty(t);
    if p :| DirtyAt(t, p) {
      LastWriterDecides(r, n, p);
      LastPutsSurvives(r, n, p);
    }
    if i, p :| 0 <= i < n && Survives(r, n, i, p) {
      SurvivesLastPuts(r, n, i, p);
      LastWriterDecides(r, n, p);
    }
  }

  /** No value under a dotted key, at any depth of plain keys, holds a dotted key itself. */
  predicate DottedValuesClean(r: Raw)
    decreases r
  {
    r.RawDict? ==>
      forall i :: 0 <= i < |r.items| ==>
        if Dotted(r.items[i].key) then Clean(Freeze(r.items[i].value)) else DottedValuesClean(r.items[i].value)
  }

  /** The condition most callers meet, readable off the options alone. */
  lemma {:induction false} NormalizedClean(r: Raw)
    requires r.RawDict? && NormalizeItems(r, |r.items|).Some? && DottedValuesClean(r)
    ensures Clean(Dict(NormalizeItems(r, |r.items|).value))
    decreases r
  {
    forall i, p | 0 <= i < |r.items| ensures !Puts(r, i, p) {
      var e := r.items[i];
      var v := NormalizeValue(e.key, e.value);
      if v.Some? {
        if !Dotted(e.key) && e.value.RawDict? { NormalizedClean(e.value); }
        assert Clean(v.value);
        if PathOf(e.key) <= p { CleanNotDirty(v.value, p[|PathOf(e.key)|..]); }
      }
    }
    NormalizedCleanIff(r);
  }

  // ---------- A second pass ----------

  /** Paths that sanitising takes out with everything below them. */
  predicate Removed(p: seq<Key>) { [STORAGE, MMAPV1] <= p || [STORAGE, JOURNAL, ENABLED] <= p }

  lemma KeysPlain()
    ensures !Dotted(STORAGE) && !Dotted(JOURNAL) && !Dotted(MMAPV1) && !Dotted(ENABLED)
    ensures !Dotted(SYSTEM_LOG) && !Dotted(DESTINATION) && STORAGE != SYSTEM_LOG && MMAPV1 != JOURNAL
  {
    assert "storage"[1] != "systemLog"[1] && "mmapv1"[0] != "journal"[0];
  }

  lemma DropDirty(m: map<Key, Tree>, k: Key, p: seq<Key>)
    requires !Dotted(k)
    ensures DirtyAt(Dict(m - {k}), p) <==> DirtyAt(Dict(m), p) && !([k] <= p)
  {
    if p == [] { assert forall x :: x in m && Dotted(x) <==> x in m - {k} && Dotted(x); }
  }

  lemma PutDirty(m: map<Key, Tree>, k: Key, sub: map<Key, Tree>, p: seq<Key>)
    requires !Dotted(k) && HasDict(m, k)
    ensures DirtyAt(Dict(Put(m, k, sub)), p) <==> if [k] <= p then DirtyAt(Dict(sub), p[1..]) else DirtyAt(Dict(m), p)
  {
    var n := Put(m, k, sub);
    if p == [] { assert forall x :: x in m && Dotted(x) <==> x in n && Dotted(x); }
  }

  lemma StorageDirty(s: map<Key, Tree>, p: seq<Key>)
    ensures DirtyAt(Dict(SanitizeStorage(s)), p)
            <==> DirtyAt(Dict(s), p) && !([MMAPV1] <= p) && !([JOURNAL, ENABLED] <= p)
  {
    KeysPlain();
    var t := s - {MMAPV1};
    DropDirty(s, MMAPV1, p);
    if HasDict(t, JOURNAL) {
      PutDirty(t, JOURNAL, t[JOURNAL].m - {ENABLED}, p);
      if [JOURNAL] <= p {
        DropDirty(t[JOURNAL].m, ENABLED, p[1..]);
        PrefixAfter(JOURNAL, [ENABLED], p);
      }
    }
  }

  lemma PrefixAfter(k: Key, rest: seq<Key>, p: seq<Key>)
    requires [k] <= p
    ensures [k] + rest <= p <==> rest <= p[1..]
  {
    assert p == [k] + p[1..];
  }

  lemma LogDirty(log: map<Key, Tree>, p: seq<Key>)
    requires DESTINATION in log && log[DESTINATION].Leaf?
    ensures DirtyAt(Dict(log - {DESTINATION}), p) <==> DirtyAt(Dict(log), p)
  {
    KeysPlain();
    DropDirty(log, DESTINATION, p);
  }

  /** Sanitising takes dotted keys out of the removed paths and leaves every other one. */
  lemma SanitizedDirtyAt(m: map<Key, Tree>, p: seq<Key>)
    ensures DirtyAt(Dict(Sanitize(m)), p) <==> DirtyAt(Dict(m), p) && !Removed(p)
  {
    KeysPlain();
    var m1 := if HasDict(m, STORAGE) then Put(m, STORAGE, SanitizeStorage(m[STORAGE].m)) else m;
    assert DirtyAt(Dict(m1), p) <==> DirtyAt(Dict(m), p) && !Removed(p) by { StorageStep(m, p); }
    if HasDict(m1, SYSTEM_LOG) && DESTINATION in m1[SYSTEM_LOG].m
        && m1[SYSTEM_LOG].m[DESTINATION] == Leaf(Str("stderr")) {
      var log := m1[SYSTEM_LOG].m;
      PutDirty(m1, SYSTEM_LOG, log - {DESTINATION}, p);
      if [SYSTEM_LOG] <= p { LogDirty(log, p[1..]); }
    }
  }

  lemma StorageStep(m: map<Key, Tree>, p: seq<Key>)
    ensures var m1 := if HasDict(m, STORAGE) then Put(m, STORAGE, SanitizeStorage(m[STORAGE].m)) else m;
            DirtyAt(Dict(m1), p) <==> DirtyAt(Dict(m), p) && !Removed(p)
  {
    KeysPlain();
    if [STORAGE] <= p {
      PrefixAfter(STORAGE, [MMAPV1], p);
      PrefixAfter(STORAGE, [JOURNAL, ENABLED], p);
    }
    if HasDict(m, STORAGE) {
      PutDirty(m, STORAGE, SanitizeStorage(m[STORAGE].m), p);
      if [STORAGE] <= p { StorageDirty(m[STORAGE].m, p[1..]); }
    }
  }

  /** Some option leaves a dotted key where sanitising does not take it out. */
  ghost predicate DottedKeyStays(r: Raw)
    requires r.RawDict?
  {
    exists i, p :: 0 <= i < |r.items| && Survives(r, |r.items|, i, p) && !Removed(p)
  }

  /** The normalised configuration is free of dotted keys exactly when the options leave none. */
  lemma SanitizedCleanIff(r: Raw)
    requires r.RawDict? && Normalize(r).Some?
    ensures Clean(Dict(Normalize(r).value)) <==> !DottedKeyStays(r)
  {
    var m, n := NormalizeItems(r, |r.items|).value, |r.items|;
    CleanIffNowhereDirty(Dict(Sanitize(m)));
    if p :| DirtyAt(Dict(Sanitize(m)), p) {
      SanitizedDirtyAt(m, p);
      LastWriterDecides(r, n, p);
      LastPutsSurvives(r, n, p);
    }
    if i, p :| 0 <= i < n && Survives(r, n, i, p) && !Removed(p) {
      SurvivesLastPuts(r, n, i, p);
      LastWriterDecides(r, n, p);
      SanitizedDirtyAt(m, p);
    }
  }

  lemma DottedValuesCleanSuffices(r: Raw)
    requires r.RawDict? && Normalize(r).Some? && DottedValuesClean(r)
    ensures !DottedKeyStays(r)
  {
    NormalizedClean(r);
    var m := NormalizeItems(r, |r.items|).value;
    SanitizeBelow(m);
    BelowClean(Dict(Sanitize(m)), Dict(m));
    SanitizedCleanIff(r);
  }

  /** Normalising a configuration and then, read back in whatever key order, normalising it again changes
      nothing exactly when the options leave no dotted key outside the removed paths; values under dotted
      keys that hold none themselves are enough. */
  lemma NormalizeTwice(r: Raw, t: Tree, again: Raw)
    requires r.RawDict? && t.Dict? && Normalize(r) == Some(t.m) && Represents(again, t)
    ensures Normalize(again) == Some(t.m) <==> !DottedKeyStays(r)
    ensures DottedValuesClean(r) ==> Normalize(again) == Some(t.m)
  {
    SanitizeTwice(NormalizeItems(r, |r.items|).value);
    SanitizedCleanIff(r);
    if DottedValuesClean(r) { DottedValuesCleanSuffices(r); }
    if Clean(t) {
      CleanIsFixed(again, t);
    } else if Normalize(again) == Some(t.m) {
      SanitizeBelow(NormalizeItems(again, |again.items|).value);
      FixedIsClean(again, t);
    }
  }

  /** Copying values unnormalised is visible: normalising {"a.b": {"c.d": Null}} once leaves "c.d". */
  lemma DottedValueStays()
    ensures var inner := RawDict([Entry(Text("c.d"), RawLeaf(Null))]);
            var r := RawDict([Entry(Text("a.b"), inner)]);
            && NormalizeItems(r, 1).Some? && !Clean(Dict(NormalizeItems(r, 1).value))
            && DottedKeyStays(r)
  {
    var inner := RawDict([Entry(Text("c.d"), RawLeaf(Null))]);
    var r := RawDict([Entry(Text("a.b"), inner)]);
    var p := [Text("a"), Text("b")];
    assert "a.b"[1] == '.' && "c.d"[1] == '.';
    assert PathOf(Text("a.b")) == p by {
      assert "" + ['a'] == "a" && "" + ['b'] == "b";
      assert Parts("a.b", 3, "b") == [Text("b")];
      assert Parts("a.b", 2, "") == [Text("b")];
      assert Parts("a.b", 1, "a") == p;
    }
    var v := NormalizeValue(Text("a.b"), inner);
    assert v == Some(Freeze(inner));
    assert Text("c.d") in Freeze(inner).m by { assert FreezeItems(inner, 0) == map[]; }
    assert DirtyAt(Freeze(inner), p[2..]);
    assert NormalizeItems(r, 0) == Some(map[]);
    assert Survives(r, 1, 0, p);
    NormalizedCleanIff(r);
    assert !Removed(p) by { assert |"storage"| != |"a"|; }
  }
}
