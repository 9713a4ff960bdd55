// Which place a dotted key names, and what stands there after normalising
// (service.py, MongoConfigurationManager._normalize).

module ConfigPaths {
  import opened Options
  import opened ConfigTree

  /** Non-empty words without dots. */
  predicate Words(ps: seq<string>) { forall i :: 0 <= i < |ps| ==> ps[i] != "" && '.' !in ps[i] }

  function KeysOf(ps: seq<string>): (keys: seq<Key>)
    ensures |keys| == |ps| && forall i :: 0 <= i < |ps| ==> keys[i] == Text(ps[i])
  {
    seq(|ps|, i requires 0 <= i < |ps| => Text(ps[i]))
  }

  function Dots(n: nat): (s: string)
    ensures |s| == n && forall c :: c in s ==> c == '.'
  {
    if n == 0 then "" else "." + Dots(n - 1)
  }

  /** The words with dots[i] dots before word i, and the last number of dots after them all. */
  function Spread(ps: seq<string>, dots: seq<nat>): string
    requires |dots| == |ps| + 1
  {
    Dots(dots[0]) + if ps == [] then "" else ps[0] + Spread(ps[1..], dots[1..])
  }

  predicate Separated(ps: seq<string>, dots: seq<nat>) {
    |dots| == |ps| + 1 && forall i :: 0 < i < |ps| ==> dots[i] > 0
  }

  // ---------- One step of the splitting ----------

  lemma {:induction false} PartsTail(s: string, n: nat, t: string, m: nat, word: string)
    requires n <= |s| && m <= |t| && s[n..] == t[m..] && '.' !in word
    ensures Parts(s, n, word) == Parts(t, m, word)
    decreases |s| - n
  {
    if n < |s| {
      assert s[n] == s[n..][0] && t[m] == t[m..][0];
      assert s[n+1..] == s[n..][1..] && t[m+1..] == t[m..][1..];
      if s[n] == '.' { PartsTail(s, n + 1, t, m + 1, ""); } else { PartsTail(s, n + 1, t, m + 1, word + [s[n]]); }
    }
  }

  function Done(word: string): seq<Key> { if word == "" then [] else [Text(word)] }

  lemma DotNext(s: string, word: string)
    requires '.' !in word
    ensures Parts("." + s, 0, word) == Done(word) + Parts(s, 0, "")
  {
    PartsTail("." + s, 1, s, 0, "");
  }

  lemma {:induction false} WordNext(p: string, s: string, word: string)
    requires '.' !in p && '.' !in word
    ensures Parts(p + s, 0, word) == Parts(s, 0, word + p)
  {
    if p == "" {
      assert p + s == s && word + p == word;
    } else {
      var all, rest := p + s, p[1..] + s;
      assert all[0] == p[0] && all[1..] == rest[0..];
      PartsTail(all, 1, rest, 0, word + [p[0]]);
      WordNext(p[1..], s, word + [p[0]]);
      assert word + [p[0]] + p[1..] == word + p;
    }
  }

  lemma {:induction false} DotsNext(n: nat, s: string)
    ensures Parts(Dots(n) + s, 0, "") == Parts(s, 0, "")
  {
    if n == 0 {
      assert Dots(0) + s == s;
    } else {
      assert Dots(n) + s == "." + (Dots(n - 1) + s);
      DotNext(Dots(n - 1) + s, "");
      DotsNext(n - 1, s);
    }
  }

  // ---------- Whole keys ----------

  /** However the words are spread, with dots in front, behind and doubled, they are the parts, in order. */
  lemma {:induction false} SpreadParts(ps: seq<string>, dots: seq<nat>)
    requires Words(ps) && Separated(ps, dots)
    ensures Parts(Spread(ps, dots), 0, "") == KeysOf(ps)
    decreases |ps|
  {
    if ps == [] {
      DotsNext(dots[0], "");
    } else {
      var rest := Spread(ps[1..], dots[1..]);
      DotsNext(dots[0], ps[0] + rest);
      WordNext(ps[0], rest, "");
      assert "" + ps[0] == ps[0];
      RestOfWords(ps, dots);
    }
  }

  lemma {:induction false} RestOfWords(ps: seq<string>, dots: seq<nat>)
    requires Words(ps) && Separated(ps, dots) && ps != []
    ensures Parts(Spread(ps[1..], dots[1..]), 0, ps[0]) == KeysOf(ps)
    decreases |ps|, 0
  {
    var qs, rest := ps[1..], Spread(ps[1..], dots[1..]);
    assert ps == [ps[0]] + qs;
    if dots[1] == 0 {
      assert qs == [] && rest == "";
      assert KeysOf(ps) == [Text(ps[0])];
    } else {
      var fewer := [dots[1] - 1] + dots[2..];
      assert dots[1..][1..] == fewer[1..];
      FewerDots(ps, dots, fewer);
      assert rest == "." + Spread(qs, fewer);
      DotNext(Spread(qs, fewer), ps[0]);
      SpreadParts(qs, fewer);
      assert KeysOf(ps) == [Text(ps[0])] + KeysOf(qs);
    }
  }

  lemma FewerDots(ps: seq<string>, dots: seq<nat>, fewer: seq<nat>)
    requires Words(ps) && Separated(ps, dots) && ps != [] && dots[1] > 0 && fewer == [dots[1] - 1] + dots[2..]
    ensures Words(ps[1..]) && Separated(ps[1..], fewer)
  {
    var qs := ps[1..];
    assert forall i :: 0 <= i < |qs| ==> qs[i] == ps[i+1];
    forall i | 0 < i < |qs| ensures fewer[i] > 0 { assert fewer[i] == dots[i+1]; }
  }

  /** Every text is some words spread out. */
  lemma {:induction false} EveryText(s: string) returns (ps: seq<string>, dots: seq<nat>)
    ensures Words(ps) && Separated(ps, dots) && Spread(ps, dots) == s
  {
    if s == "" {
      ps, dots := [], [0];
    } else {
      var qs, less := EveryText(s[1..]);
      assert s == [s[0]] + s[1..];
      if s[0] == '.' {
        ps, dots := qs, [less[0] + 1] + less[1..];
        OneMoreDot(qs, less, dots);
      } else if qs != [] && less[0] == 0 {
        ps, dots := [[s[0]] + qs[0]] + qs[1..], less;
        LongerWord(qs, less, s[0], ps);
      } else {
        ps, dots := [[s[0]]] + qs, [0] + less;
        OneMoreWord(qs, less, s[0], ps, dots);
      }
    }
  }

  lemma OneMoreDot(qs: seq<string>, less: seq<nat>, dots: seq<nat>)
    requires Separated(qs, less) && dots == [less[0] + 1] + less[1..]
    ensures Separated(qs, dots) && Spread(qs, dots) == "." + Spread(qs, less)
  {
    assert dots[1..] == less[1..];
  }

  lemma LongerWord(qs: seq<string>, less: seq<nat>, c: char, ps: seq<string>)
    requires Words(qs) && Separated(qs, less) && qs != [] && less[0] == 0 && c != '.'
    requires ps == [[c] + qs[0]] + qs[1..]
    ensures Words(ps) && Separated(ps, less) && Spread(ps, less) == [c] + Spread(qs, less)
  {
    LongerWords(qs, c, ps);
    LongerSpread(qs[0], qs[1..], less, c);
    assert ps[1..] == qs[1..];
    assert qs == [qs[0]] + qs[1..] && ps == [[c] + qs[0]] + qs[1..];
  }

  lemma LongerWords(qs: seq<string>, c: char, ps: seq<string>)
    requires Words(qs) && qs != [] && c != '.' && ps == [[c] + qs[0]] + qs[1..]
    ensures Words(ps)
  {
    forall i | 0 < i < |ps| ensures ps[i] != "" && '.' !in ps[i] { assert ps[i] == qs[i]; }
  }

  lemma SpreadFrom(p: string, rest: seq<string>, less: seq<nat>)
    requires |less| == |rest| + 2 && less[0] == 0
    ensures Spread([p] + rest, less) == p + Spread(rest, less[1..])
  {
    assert ([p] + rest)[1..] == rest;
  }

  lemma LongerSpread(p: string, rest: seq<string>, less: seq<nat>, c: char)
    requires |less| == |rest| + 2 && less[0] == 0
    ensures Spread([[c] + p] + rest, less) == [c] + Spread([p] + rest, less)
  {
    SpreadFrom(p, rest, less);
    SpreadFrom([c] + p, rest, less);
    OneMoreChar(c, p, Spread(rest, less[1..]));
  }

  lemma OneMoreChar(c: char, p: string, s: string)
    ensures [c] + p + s == [c] + (p + s)
  {
  }

  lemma OneMoreWord(qs: seq<string>, less: seq<nat>, c: char, ps: seq<string>, dots: seq<nat>)
    requires Words(qs) && Separated(qs, less) && (qs == [] || less[0] > 0) && c != '.'
    requires ps == [[c]] + qs && dots == [0] + less
    ensures Words(ps) && Separated(ps, dots) && Spread(ps, dots) == [c] + Spread(qs, less)
  {
    assert ps[1..] == qs && dots[1..] == less;
  }

  /** A dotted key names the place of its words, in order, and nothing else in it matters. */
  lemma DottedPath(ps: seq<string>, dots: seq<nat>)
    requires Words(ps) && Separated(ps, dots) && Dotted(Text(Spread(ps, dots)))
    ensures PathOf(Text(Spread(ps, dots))) == KeysOf(ps)
  {
    SpreadParts(ps, dots);
  }

  /** The words with single dots between them. */
  function Join(ps: seq<string>): string
    requires ps != []
  {
    if |ps| == 1 then ps[0] else ps[0] + "." + Join(ps[1..])
  }

  lemma {:induction false} JoinIsSpread(ps: seq<string>)
    requires ps != []
    ensures Join(ps) == Spread(ps, [0] + seq(|ps| - 1, _ => 1) + [0])
  {
    var dots: seq<nat> := [0] + seq(|ps| - 1, _ => 1) + [0];
    if |ps| == 1 {
      assert dots[1..] == [0] && ps[1..] == [];
      assert Spread(ps[1..], dots[1..]) == "";
    } else {
      var qs, tail: seq<nat> := ps[1..], [0] + seq(|ps| - 2, _ => 1) + [0];
      JoinIsSpread(qs);
      assert dots[1..][1..] == tail[1..] && dots[1] == 1;
      assert Spread(qs, dots[1..]) == "." + Spread(qs, tail);
    }
  }

  lemma JoinedPath(ps: seq<string>)
    requires Words(ps) && |ps| >= 2
    ensures PathOf(Text(Join(ps))) == KeysOf(ps)
  {
    JoinIsSpread(ps);
    assert Join(ps)[|ps[0]|] == '.';
    DottedPath(ps, [0] + seq(|ps| - 1, _ => 1) + [0]);
  }

  /** Only a key that consists of dots names no place. */
  lemma NoPathIff(k: Key)
    ensures PathOf(k) == [] <==> k.Text? && k.s != "" && forall c :: c in k.s ==> c == '.'
  {
    if Dotted(k) {
      var ps, dots := EveryText(k.s);
      SpreadParts(ps, dots);
      if ps == [] {
        assert k.s == Dots(dots[0]);
      } else {
        WordInside(ps, dots);
      }
    } else if k.Text? && k.s != "" {
      assert k.s[0] in k.s;
    }
  }

  lemma WordInside(ps: seq<string>, dots: seq<nat>)
    requires Words(ps) && Separated(ps, dots) && ps != []
    ensures exists c :: c in Spread(ps, dots) && c != '.'
  {
    var s := Spread(ps, dots);
    assert ps[0][0] in ps[0];
    assert s == Dots(dots[0]) + (ps[0] + Spread(ps[1..], dots[1..]));
    assert s[dots[0]] == ps[0][0];
    assert s[dots[0]] in s;
  }

  // ---------- What stands at a place ----------

  predicate Apart(p: seq<Key>, q: seq<Key>) { !(p <= q) && !(q <= p) }

  /** The value of an option stands, normalised or copied, where its key says, unless a later option writes above
      or below. */
  lemma {:induction false} OptionStands(r: Raw, n: nat, i: nat)
    requires r.RawDict? && i < n <= |r.items| && NormalizeItems(r, n).Some?
    requires forall j :: i < j < n ==> Apart(PathOf(r.items[j].key), PathOf(r.items[i].key))
    ensures At(Dict(NormalizeItems(r, n).value), PathOf(r.items[i].key))
            == NormalizeValue(r.items[i].key, r.items[i].value)
  {
    var e, p := r.items[n-1], PathOf(r.items[i].key);
    AtAfterWrite(NormalizeItems(r, n - 1).value, PathOf(e.key), NormalizeValue(e.key, e.value).value, p);
    if i < n - 1 {
      OptionStands(r, n - 1, i);
    } else {
      assert p[|p|..] == [];
    }
  }

  /** Nothing else is written: what stands at a place that no option writes above, at or below is nothing. */
  lemma {:induction false} NothingElse(r: Raw, n: nat, p: seq<Key>)
    requires r.RawDict? && n <= |r.items| && NormalizeItems(r, n).Some?
    requires p != [] && forall j :: 0 <= j < n ==> Apart(PathOf(r.items[j].key), p)
    ensures At(Dict(NormalizeItems(r, n).value), p) == None
  {
    if n > 0 {
      var e := r.items[n-1];
      AtAfterWrite(NormalizeItems(r, n - 1).value, PathOf(e.key), NormalizeValue(e.key, e.value).value, p);
      NothingElse(r, n - 1, p);
    }
  }

  /** The keys of a dictionary are different, at every depth. */
  predicate DifferentKeys(r: Raw) {
    r.RawDict? ==>
      && (forall i, j :: 0 <= i < j < |r.items| ==> r.items[i].key != r.items[j].key)
      && forall i :: 0 <= i < |r.items| ==> DifferentKeys(r.items[i].value)
  }

  /** A copied value is the value as it was given. */
  lemma {:induction false} CopiedAsIs(r: Raw)
    requires DifferentKeys(r)
    ensures Represents(r, Freeze(r))
  {
    if r.RawDict? {
      var m := FreezeItems(r, |r.items|);
      forall i | 0 <= i < |r.items| ensures Represents(r.items[i].value, Freeze(r.items[i].value)) {
        CopiedAsIs(r.items[i].value);
      }
      Copied(r, |r.items|);
      forall k | k in m
        ensures exists i :: 0 <= i < |r.items| && r.items[i].key == k && Represents(r.items[i].value, m[k])
      {
        var i :| 0 <= i < |r.items| && r.items[i].key == k;
        assert m[k] == Freeze(r.items[i].value);
      }
    }
  }

  lemma {:induction false} Copied(r: Raw, n: nat)
    requires r.RawDict? && DifferentKeys(r) && n <= |r.items|
    ensures var m := FreezeItems(r, n);
            && (forall i :: 0 <= i < n ==> r.items[i].key in m && m[r.items[i].key] == Freeze(r.items[i].value))
            && (forall k :: k in m ==> exists i :: 0 <= i < n && r.items[i].key == k)
  {
    if n > 0 { Copied(r, n - 1); }
  }
}
