// Merging configuration trees and the base configuration a guest writes
// (service.py, MongoConfigurationManager._merge and MongoDbApp._configuration_contents).

module ConfigMerge {
  import opened ConfigTree
  import opened Options

  /** The value of _merge(target, source): dictionaries merge key by key, anything else is replaced. */
  function Merge(a: map<Key, Tree>, b: map<Key, Tree>): map<Key, Tree>
    decreases Dict(b)
  {
    map k | k in a.Keys + b.Keys ::
      if k !in b then a[k]
      else if b[k].Dict? && HasDict(a, k) then
        assert b[k] < Dict(b) && b[k] == Dict(b[k].m);
        Dict(Merge(a[k].m, b[k].m))
      else b[k]
  }

  // ---------- What a merge shows at every path ----------

  function LeafAt(t: Tree, p: seq<Key>): Option<Scalar>
    decreases |p|
  {
    if p == [] then (if t.Leaf? then Some(t.v) else None)
    else if t.Dict? && p[0] in t.m then LeafAt(t.m[p[0]], p[1..])
    else None
  }

  datatype View = Hit(v: Scalar) | Blocked | Open

  /** How the user's tree answers for a path: a value, a value of another shape in the way, or nothing. */
  function Sees(b: map<Key, Tree>, p: seq<Key>): View
    requires p != []
    decreases |p|
  {
    if p[0] !in b then Open
    else match b[p[0]]
      case Leaf(v) => if |p| == 1 then Hit(v) else Blocked
      case Dict(m) => if |p| == 1 then Blocked else Sees(m, p[1..])
  }

  /** Right bias at every path: the user's leaf where there is one, the base leaf where the user's tree
      leaves the path open, and nothing where a value of another shape stands in the way. */
  lemma {:induction false} MergeRightBiased(a: map<Key, Tree>, b: map<Key, Tree>, p: seq<Key>)
    requires p != []
    ensures LeafAt(Dict(Merge(a, b)), p) ==
            match Sees(b, p)
            case Hit(v) => Some(v)
            case Blocked => None
            case Open => LeafAt(Dict(a), p)
    decreases |p|
  {
    var k := p[0];
    if k in b {
      if b[k].Dict? && |p| > 1 {
        if HasDict(a, k) {
          MergeRightBiased(a[k].m, b[k].m, p[1..]);
        } else {
          SeesAlone(b[k].m, p[1..]);
        }
      }
    }
  }

  lemma {:induction false} SeesAlone(b: map<Key, Tree>, p: seq<Key>)
    requires p != []
    ensures LeafAt(Dict(b), p) == match Sees(b, p) case Hit(v) => Some(v) case Blocked => None case Open => None
    decreases |p|
  {
    if p[0] in b && b[p[0]].Dict? && |p| > 1 {
      SeesAlone(b[p[0]].m, p[1..]);
    }
  }

  // ---------- Associativity, exactly ----------

  /** c holds every key of a, with a dictionary that covers a's wherever both hold one. */
  predicate Covers(a: map<Key, Tree>, c: map<Key, Tree>)
    decreases Dict(a)
  {
    forall k :: k in a ==>
      k in c && (a[k].Dict? && c[k].Dict? ==> assert a[k] < Dict(a) && a[k] == Dict(a[k].m); Covers(a[k].m, c[k].m))
  }

  lemma {:induction false} CoversIff(a: map<Key, Tree>, c: map<Key, Tree>)
    ensures Merge(a, c) == c <==> Covers(a, c)
    decreases Dict(a)
  {
    var m := Merge(a, c);
    forall k | k in a && k in c && a[k].Dict? && c[k].Dict?
      ensures m[k] == c[k] <==> Covers(a[k].m, c[k].m)
    {
      assert a[k] < Dict(a) && a[k] == Dict(a[k].m);
      CoversIff(a[k].m, c[k].m);
    }
    if Covers(a, c) {
      assert m.Keys == c.Keys;
      assert m == c;
    }
    if m == c {
      forall k | k in a ensures k in c { assert k in m; }
    }
  }

  /** No key holds a dictionary in a, a scalar in b and a dictionary in c, unless c's dictionary covers
      a's there. */
  predicate NoSandwich(a: map<Key, Tree>, b: map<Key, Tree>, c: map<Key, Tree>)
    decreases Dict(c)
  {
    forall k :: k in c && c[k].Dict? && k in b && HasDict(a, k) ==>
      assert c[k] < Dict(c);
      if b[k].Leaf? then Covers(a[k].m, c[k].m) else NoSandwich(a[k].m, b[k].m, c[k].m)
  }

  /** A dictionary, a scalar and another dictionary under one key: merging from the left forgets the first
      dictionary, merging from the right keeps it. */
  lemma MergeNotAssociative(k: Key, x: Key, y: Key, v: Scalar)
    requires x != y
    ensures var a, b, c := map[k := Dict(map[x := Leaf(v)])], map[k := Leaf(v)], map[k := Dict(map[y := Leaf(v)])];
            && Merge(Merge(a, b), c) == c
            && Merge(a, Merge(b, c)) == map[k := Dict(map[x := Leaf(v), y := Leaf(v)])]
            && !NoSandwich(a, b, c)
  {
    var a, b, c := map[k := Dict(map[x := Leaf(v)])], map[k := Leaf(v)], map[k := Dict(map[y := Leaf(v)])];
    assert Merge(a, b) == b && Merge(b, c) == c;
    assert Merge(map[x := Leaf(v)], map[y := Leaf(v)]) == map[x := Leaf(v), y := Leaf(v)];
    assert k in c && c[k].Dict? && k in b && HasDict(a, k) && b[k].Leaf?;
    assert x in a[k].m && x !in c[k].m;
  }

  /** Apart from the key shape above, both bracketings agree on every key. */
  lemma AssociativeAt(a: map<Key, Tree>, b: map<Key, Tree>, c: map<Key, Tree>, k: Key)
    requires k in a || k in b || k in c
    ensures var l, r := Merge(Merge(a, b), c)[k], Merge(a, Merge(b, c))[k];
            if k in c && c[k].Dict? && k in b && HasDict(a, k) then
              if b[k].Leaf? then l == c[k] && r == Dict(Merge(a[k].m, c[k].m))
              else l == Dict(Merge(Merge(a[k].m, b[k].m), c[k].m)) && r == Dict(Merge(a[k].m, Merge(b[k].m, c[k].m)))
            else l == r
  {
    var ab, bc := Merge(a, b), Merge(b, c);
    assert k in a || k in b ==> k in ab;
    assert k in b || k in c ==> k in bc;
  }

  lemma {:induction false} MergeAssociativeIff(a: map<Key, Tree>, b: map<Key, Tree>, c: map<Key, Tree>)
    ensures Merge(Merge(a, b), c) == Merge(a, Merge(b, c)) <==> NoSandwich(a, b, c)
    decreases Dict(c)
  {
    var l, r := Merge(Merge(a, b), c), Merge(a, Merge(b, c));
    assert l.Keys == a.Keys + b.Keys + c.Keys == r.Keys;
    forall k | k in c && c[k].Dict? && k in b && HasDict(a, k)
      ensures l[k] == r[k] <==>
              if b[k].Leaf? then Covers(a[k].m, c[k].m) else NoSandwich(a[k].m, b[k].m, c[k].m)
    {
      AssociativeAt(a, b, c, k);
      assert c[k] < Dict(c);
      CoversIff(a[k].m, c[k].m);
      if b[k].Dict? { MergeAssociativeIff(a[k].m, b[k].m, c[k].m); }
    }
    if NoSandwich(a, b, c) {
      forall k | k in l ensures l[k] == r[k] { AssociativeAt(a, b, c, k); }
      assert l == r;
    }
  }

  // ---------- The configuration written to the guest ----------

  const DB_PATH := Text("dbPath")
  const WIRED_TIGER := Text("wiredTiger")
  const ENGINE_CONFIG := Text("engineConfig")
  const CACHE_SIZE := Text("cacheSizeGB")

  function CacheSize(memory: int): real {
    var quarter := memory as real * 0.25 / 1024.0;
    var floor := if quarter > 0.256 then quarter else 0.256;
    if floor < 2.0 then floor else 2.0
  }

  function BaseConfig(memory: int): map<Key, Tree> {
    var storage := map[DB_PATH := Leaf(Str("/data/db"))];
    map[STORAGE := Dict(
      if memory > 0 then
        storage[WIRED_TIGER := Dict(map[ENGINE_CONFIG := Dict(map[CACHE_SIZE := Leaf(Num(CacheSize(memory)))])])]
      else storage)]
  }

  /** _configuration_contents. Without a memory size the comparison `memory_mb > 0` raises, which is
      None here, as is a key without a non-empty part. */
  function ConfigurationContents(options: Raw, memory: Option<int>): Option<map<Key, Tree>>
    requires options.RawDict?
  {
    var user := Normalize(options);
    if memory.None? || user.None? then None else Some(Merge(BaseConfig(memory.value), user.value))
  }

  /** In the guest's configuration the user's options win: a leaf that they set stands, and a generated one only
      where they leave its place open. */
  lemma UserWins(options: Raw, memory: int, p: seq<Key>)
    requires options.RawDict? && p != [] && Normalize(options).Some?
    ensures var m := ConfigurationContents(options, Some(memory));
            m.Some? && LeafAt(Dict(m.value), p)
                       == match Sees(Normalize(options).value, p)
                          case Hit(v) => Some(v)
                          case Blocked => None
                          case Open => LeafAt(Dict(BaseConfig(memory)), p)
  {
    MergeRightBiased(BaseConfig(memory), Normalize(options).value, p);
  }

  lemma {:induction false} MergeCleanIff(a: map<Key, Tree>, b: map<Key, Tree>)
    requires Clean(Dict(a))
    ensures Clean(Dict(Merge(a, b))) <==> Clean(Dict(b))
    decreases Dict(b)
  {
    var m := Merge(a, b);
    forall k | k in b ensures Clean(m[k]) <==> Clean(b[k]) {
      if b[k].Dict? && HasDict(a, k) {
        assert b[k] < Dict(b);
        MergeCleanIff(a[k].m, b[k].m);
      }
    }
    forall k | k in m && k !in b ensures !Dotted(k) && Clean(m[k]) {
      assert k in a;
    }
    if Clean(Dict(m)) {
      forall k | k in b ensures !Dotted(k) && Clean(b[k]) { assert k in m; }
    }
  }

  lemma BaseClean(memory: int)
    ensures Clean(Dict(BaseConfig(memory)))
  {
    assert !Dotted(STORAGE) && !Dotted(DB_PATH) && !Dotted(WIRED_TIGER) && !Dotted(ENGINE_CONFIG)
        && !Dotted(CACHE_SIZE);
    var cache := Dict(map[CACHE_SIZE := Leaf(Num(CacheSize(memory)))]);
    assert Clean(cache);
    assert Clean(Dict(map[ENGINE_CONFIG := cache]));
    assert Clean(BaseConfig(memory)[STORAGE]);
  }

  lemma KeysDiffer()
    ensures STORAGE != SYSTEM_LOG
    ensures MMAPV1 !in {JOURNAL, DB_PATH, WIRED_TIGER} && JOURNAL !in {DB_PATH, WIRED_TIGER}
  {
    assert "storage"[1] != "systemLog"[1];
    assert "mmapv1"[0] == 'm' && "journal"[0] == 'j' && "dbPath"[0] == 'd' && "wiredTiger"[0] == 'w';
  }

  lemma BaseStorage(memory: int)
    ensures var base := BaseConfig(memory);
            && base.Keys == {STORAGE} && base[STORAGE].Dict? && DB_PATH in base[STORAGE].m
            && MMAPV1 !in base[STORAGE].m && JOURNAL !in base[STORAGE].m
  {
    KeysDiffer();
  }

  /** What the guest generates: the data directory, and with a memory size a cache of a quarter of it in GiB, at
      least 0.256 and at most 2; nothing else. */
  lemma GeneratedBase(memory: int, p: seq<Key>)
    ensures var base, cache := Dict(BaseConfig(memory)), [STORAGE, WIRED_TIGER, ENGINE_CONFIG, CACHE_SIZE];
            && LeafAt(base, [STORAGE, DB_PATH]) == Some(Str("/data/db"))
            && (memory <= 0 ==> LeafAt(base, cache) == None)
            && (memory > 0 ==> LeafAt(base, cache) == Some(Num(CacheSize(memory))))
            && (p != [STORAGE, DB_PATH] && p != cache ==> LeafAt(base, p) == None)
    ensures 0.256 <= CacheSize(memory) <= 2.0
    ensures 0.256 * 4096.0 <= memory as real <= 2.0 * 4096.0 ==> CacheSize(memory) * 4096.0 == memory as real
  {
    KeysDiffer();
    BaseLeaves(memory, p);
    BaseLeaves(memory, [STORAGE, DB_PATH]);
    BaseLeaves(memory, [STORAGE, WIRED_TIGER, ENGINE_CONFIG, CACHE_SIZE]);
  }

  lemma BaseLeaves(memory: int, p: seq<Key>)
    ensures LeafAt(Dict(BaseConfig(memory)), p)
            == if p == [STORAGE, DB_PATH] then Some(Str("/data/db"))
               else if memory > 0 && p == [STORAGE, WIRED_TIGER, ENGINE_CONFIG, CACHE_SIZE] then
                 Some(Num(CacheSize(memory)))
               else None
  {
    KeysDiffer();
    assert DB_PATH != WIRED_TIGER;
    var base := BaseConfig(memory);
    if p != [] && p[0] == STORAGE {
      var q, storage := p[1..], base[STORAGE];
      assert p == [STORAGE] + q && LeafAt(Dict(base), p) == LeafAt(storage, q);
      if q != [] && q[0] == DB_PATH {
        assert q == [DB_PATH] + q[1..] && LeafAt(storage, q) == LeafAt(Leaf(Str("/data/db")), q[1..]);
      } else if q != [] && q[0] == WIRED_TIGER && memory > 0 {
        var r := q[1..];
        assert q == [WIRED_TIGER] + r && LeafAt(storage, q) == LeafAt(storage.m[WIRED_TIGER], r);
        CacheLeaf(storage.m[WIRED_TIGER], r, CacheSize(memory));
      }
    }
  }

  lemma CacheLeaf(t: Tree, r: seq<Key>, size: real)
    requires t == Dict(map[ENGINE_CONFIG := Dict(map[CACHE_SIZE := Leaf(Num(size))])])
    ensures LeafAt(t, r) == if r == [ENGINE_CONFIG, CACHE_SIZE] then Some(Num(size)) else None
  {
    if r != [] && r[0] == ENGINE_CONFIG {
      var u := r[1..];
      assert r == [ENGINE_CONFIG] + u && LeafAt(t, r) == LeafAt(t.m[ENGINE_CONFIG], u);
      if u != [] && u[0] == CACHE_SIZE {
        assert u == [CACHE_SIZE] + u[1..] && r == [ENGINE_CONFIG] + u;
        assert LeafAt(t.m[ENGINE_CONFIG], u) == LeafAt(Leaf(Num(size)), u[1..]);
      }
    }
  }

  /** The base brings nothing that sanitising would take out. */
  lemma MergedIsSanitized(memory: int, user: map<Key, Tree>)
    requires Sanitize(user) == user
    ensures Sanitize(Merge(BaseConfig(memory), user)) == Merge(BaseConfig(memory), user)
  {
    KeysDiffer();
    BaseStorage(memory);
    var m := Merge(BaseConfig(memory), user);
    if HasDict(m, STORAGE) {
      StorageUntouched(memory, user);
      assert m[STORAGE := Dict(m[STORAGE].m)] == m;
    }
    if HasDict(user, SYSTEM_LOG) { SanitizedLog(user); }
  }

  lemma StorageUntouched(memory: int, user: map<Key, Tree>)
    requires Sanitize(user) == user && HasDict(Merge(BaseConfig(memory), user), STORAGE)
    ensures var s := Merge(BaseConfig(memory), user)[STORAGE].m;
            SanitizeStorage(s) == s && s != map[]
  {
    KeysDiffer();
    BaseStorage(memory);
    var base, s := BaseConfig(memory)[STORAGE].m, Merge(BaseConfig(memory), user)[STORAGE].m;
    if STORAGE in user {
      SanitizedParts(user);
      assert s == Merge(base, user[STORAGE].m);
      assert JOURNAL in s ==> s[JOURNAL] == user[STORAGE].m[JOURNAL];
    }
    assert DB_PATH in s && MMAPV1 !in s;
    assert s - {MMAPV1} == s;
    if HasDict(s, JOURNAL) {
      assert s[JOURNAL].m - {ENABLED} == s[JOURNAL].m;
      assert s[JOURNAL := s[JOURNAL]] == s;
    }
  }

  /** What a sanitised configuration cannot hold under storage. */
  lemma SanitizedParts(user: map<Key, Tree>)
    requires Sanitize(user) == user && HasDict(user, STORAGE)
    ensures var u := user[STORAGE].m;
            && u != map[] && MMAPV1 !in u
            && (HasDict(u, JOURNAL) ==> u[JOURNAL].m != map[] && ENABLED !in u[JOURNAL].m)
  {
    KeysDiffer();
  }

  lemma SanitizedLog(user: map<Key, Tree>)
    requires Sanitize(user) == user && HasDict(user, SYSTEM_LOG)
    ensures DESTINATION in user[SYSTEM_LOG].m ==> user[SYSTEM_LOG].m[DESTINATION] != Leaf(Str("stderr"))
  {
    KeysDiffer();
  }

  /** Writing the merged configuration normalises it once more. In whatever key order it is read back,
      that pass is a no-op exactly when the user's options leave no dotted key outside the removed paths;
      values under dotted keys that hold none themselves are enough. */
  lemma SecondNormalizationIsNoOp(options: Raw, memory: int, written: Raw)
    requires options.RawDict? && ConfigurationContents(options, Some(memory)).Some?
    requires Represents(written, Dict(ConfigurationContents(options, Some(memory)).value))
    ensures Normalize(written) == ConfigurationContents(options, Some(memory)) <==> !DottedKeyStays(options)
    ensures DottedValuesClean(options) ==> Normalize(written) == ConfigurationContents(options, Some(memory))
  {
    var user := Normalize(options).value;
    var m := Merge(BaseConfig(memory), user);
    BaseClean(memory);
    MergeCleanIff(BaseConfig(memory), user);
    SanitizedCleanIff(options);
    if DottedValuesClean(options) { DottedValuesCleanSuffices(options); }
    if Clean(Dict(user)) {
      CleanIsFixed(written, Dict(m));
      SanitizeTwice(NormalizeItems(options, |options.items|).value);
      MergedIsSanitized(memory, user);
    } else if Normalize(written) == Some(m) {
      SanitizeBelow(NormalizeItems(written, |written.items|).value);
      FixedIsClean(written, Dict(m));
    }
  }

  // ---------- What sanitising takes away ----------

  predicate ObsoleteStorage(p: seq<Key>) {
    || (|p| >= 1 && p[0] == MMAPV1)
    || (|p| >= 2 && p[0] == JOURNAL && p[1] == ENABLED)
  }

  predicate Obsolete(m: map<Key, Tree>, p: seq<Key>) {
    || (|p| >= 1 && p[0] == STORAGE && ObsoleteStorage(p[1..]))
    || (p == [SYSTEM_LOG, DESTINATION] && LeafAt(Dict(m), p) == Some(Str("stderr")))
  }

  /** Exactly the MMAPv1 subtree, the journal switch and a stderr log destination disappear. */
  lemma SanitizeRemovesObsolete(m: map<Key, Tree>, p: seq<Key>)
    requires p != []
    ensures LeafAt(Dict(Sanitize(m)), p) == if Obsolete(m, p) then None else LeafAt(Dict(m), p)
  {
    KeysDiffer();
    var s := Sanitize(m);
    if p[0] == STORAGE {
      if HasDict(m, STORAGE) {
        SanitizeStorageRemoves(m[STORAGE].m, p[1..]);
        assert LeafAt(Dict(s), p) == LeafAt(Dict(SanitizeStorage(m[STORAGE].m)), p[1..]);
      }
    } else if p[0] == SYSTEM_LOG && HasDict(m, SYSTEM_LOG) && |p| > 1 {
      var log := m[SYSTEM_LOG].m;
      assert LeafAt(Dict(m), p) == LeafAt(Dict(log), p[1..]);
      var rest := p[1..];
      if DESTINATION in log && log[DESTINATION] == Leaf(Str("stderr")) {
        LogRemoves(log, rest);
        assert LeafAt(Dict(s), p) == LeafAt(Dict(log - {DESTINATION}), rest) by {
          if log - {DESTINATION} == map[] {
            assert SYSTEM_LOG !in s;
          } else {
            assert s[SYSTEM_LOG] == Dict(log - {DESTINATION});
          }
        }
        assert p == [SYSTEM_LOG, DESTINATION] <==> rest == [DESTINATION] by { assert p == [SYSTEM_LOG] + rest; }
      } else {
        assert s[SYSTEM_LOG] == m[SYSTEM_LOG];
        if p == [SYSTEM_LOG, DESTINATION] {
          assert LeafAt(Dict(log), rest) == if DESTINATION in log then LeafAt(log[DESTINATION], []) else None;
        }
      }
    }
  }

  /** A journal dictionary goes with its switch, a storage dictionary with its obsolete parts, unless something
      else is in it; both also when they were empty before. */
  predicate JournalStays(journal: Tree) { journal.Dict? ==> exists k :: k in journal.m && k != ENABLED }

  predicate StorageStays(storage: Tree) {
    storage.Dict? ==> exists k :: k in storage.m && k != MMAPV1 && (k == JOURNAL ==> JournalStays(storage.m[k]))
  }

  /** A log dictionary goes only when a stderr destination is all it holds. */
  predicate LogStays(log: Tree) {
    log.Dict? && DESTINATION in log.m && log.m[DESTINATION] == Leaf(Str("stderr"))
    ==> exists k :: k in log.m && k != DESTINATION
  }

  /** Which dictionaries disappear with what was in them. Every subtree outside these three keeps everything,
      empty dictionaries included. */
  lemma SanitizeDropsEmptied(m: map<Key, Tree>)
    ensures var s := Sanitize(m);
            && (STORAGE in s <==> STORAGE in m && StorageStays(m[STORAGE]))
            && (SYSTEM_LOG in s <==> SYSTEM_LOG in m && LogStays(m[SYSTEM_LOG]))
            && (HasDict(s, STORAGE) ==> SanitizeDropsIn(m[STORAGE], s[STORAGE].m))
            && forall k :: k !in {STORAGE, SYSTEM_LOG} ==> (k in s <==> k in m) && (k in s ==> s[k] == m[k])
  {
    KeysDiffer();
    if HasDict(m, STORAGE) { StorageDropsEmptied(m[STORAGE].m); }
    if HasDict(m, SYSTEM_LOG) { EmptyWithout(m[SYSTEM_LOG].m, DESTINATION); }
  }

  ghost predicate SanitizeDropsIn(before: Tree, after: map<Key, Tree>) {
    && before.Dict?
    && (JOURNAL in after <==> JOURNAL in before.m && JournalStays(before.m[JOURNAL]))
    && forall k :: k !in {MMAPV1, JOURNAL} ==>
         (k in after <==> k in before.m) && (k in after ==> after[k] == before.m[k])
  }

  lemma EmptyWithout(m: map<Key, Tree>, k: Key)
    ensures m - {k} == map[] <==> !exists x :: x in m && x != k
  {
    assert forall x :: x in m && x != k ==> x in m - {k};
  }

  lemma StorageDropsEmptied(storage: map<Key, Tree>)
    ensures SanitizeDropsIn(Dict(storage), SanitizeStorage(storage))
    ensures SanitizeStorage(storage) == map[] <==> !StorageStays(Dict(storage))
  {
    KeysDiffer();
    var s := SanitizeStorage(storage);
    if HasDict(storage, JOURNAL) { EmptyWithout(storage[JOURNAL].m, ENABLED); }
    assert forall k :: k in s <==> k in storage && k != MMAPV1 && (k == JOURNAL ==> JournalStays(storage[k]));
  }

  lemma LogRemoves(log: map<Key, Tree>, p: seq<Key>)
    requires DESTINATION in log && log[DESTINATION] == Leaf(Str("stderr")) && p != []
    ensures LeafAt(Dict(log - {DESTINATION}), p) == if p == [DESTINATION] then None else LeafAt(Dict(log), p)
    ensures LeafAt(Dict(log), [DESTINATION]) == Some(Str("stderr"))
  {
    if p[0] == DESTINATION && |p| > 1 {
      assert LeafAt(Dict(log), p) == LeafAt(log[DESTINATION], p[1..]);
    }
  }

  lemma SanitizeStorageRemoves(s: map<Key, Tree>, p: seq<Key>)
    ensures LeafAt(Dict(SanitizeStorage(s)), p) == if ObsoleteStorage(p) then None else LeafAt(Dict(s), p)
  {
    KeysDiffer();
    if |p| >= 2 && p[0] == JOURNAL && HasDict(s, JOURNAL) {
      var j := s[JOURNAL].m;
      assert LeafAt(Dict(s), p) == LeafAt(Dict(j), p[1..]);
      if j - {ENABLED} != map[] {
        assert LeafAt(Dict(SanitizeStorage(s)), p) == LeafAt(Dict(j - {ENABLED}), p[1..]);
      } else if p[1] != ENABLED {
        assert p[1] !in j - {ENABLED};
      }
    }
  }
}
