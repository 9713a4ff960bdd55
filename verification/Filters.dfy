// Keeping the elements of a list that satisfy a condition, in order.

module Filters {

  function Filter<T>(s: seq<T>, f: T -> bool): seq<T> {
    if s == [] then [] else (if f(s[0]) then [s[0]] else []) + Filter(s[1..], f)
  }

  lemma {:induction false} FilterMember<T>(s: seq<T>, f: T -> bool, x: T)
    ensures x in Filter(s, f) <==> x in s && f(x)
  {
    if s != [] { FilterMember(s[1..], f, x); }
  }

  lemma {:induction false} FilterJoin<T>(a: seq<T>, b: seq<T>, f: T -> bool)
    ensures Filter(a + b, f) == Filter(a, f) + Filter(b, f)
  {
    if a == [] {
      assert a + b == b;
    } else {
      FilterJoin(a[1..], b, f);
      assert (a + b)[1..] == a[1..] + b;
      assert Filter(a + b, f) == (if f(a[0]) then [a[0]] else []) + (Filter(a[1..], f) + Filter(b, f));
    }
  }

  lemma {:induction false} FilterAll<T>(s: seq<T>, f: T -> bool)
    requires forall i :: 0 <= i < |s| ==> f(s[i])
    ensures Filter(s, f) == s
  {
    if s != [] { FilterAll(s[1..], f); }
  }

  lemma {:induction false} FilterNone<T>(s: seq<T>, f: T -> bool)
    requires forall i :: 0 <= i < |s| ==> !f(s[i])
    ensures Filter(s, f) == []
  {
    if s != [] { FilterNone(s[1..], f); }
  }

  /** Keeping f first does not matter when everything that satisfies g satisfies f. */
  lemma {:induction false} FilterWithin<T>(s: seq<T>, f: T -> bool, g: T -> bool)
    requires forall i :: 0 <= i < |s| && g(s[i]) ==> f(s[i])
    ensures Filter(Filter(s, f), g) == Filter(s, g)
  {
    if s != [] {
      FilterWithin(s[1..], f, g);
      var rest := Filter(s[1..], f);
      if f(s[0]) {
        assert Filter(s, f) == [s[0]] + rest && ([s[0]] + rest)[1..] == rest;
      } else {
        assert Filter(s, f) == rest && !g(s[0]);
      }
    }
  }

  lemma {:induction false} FilterApart<T>(s: seq<T>, f: T -> bool, g: T -> bool)
    requires forall i :: 0 <= i < |s| && g(s[i]) ==> !f(s[i])
    ensures Filter(Filter(s, f), g) == []
  {
    forall i | 0 <= i < |Filter(s, f)| ensures !g(Filter(s, f)[i]) {
      var x := Filter(s, f)[i];
      FilterMember(s, f, x);
      var j :| 0 <= j < |s| && s[j] == x;
    }
    FilterNone(Filter(s, f), g);
  }

  lemma {:induction false} FilterSame<T>(s: seq<T>, f: T -> bool, g: T -> bool)
    requires forall i :: 0 <= i < |s| ==> (f(s[i]) <==> g(s[i]))
    ensures Filter(s, f) == Filter(s, g)
  {
    if s != [] { FilterSame(s[1..], f, g); }
  }

  lemma {:induction false} FilterTwice<T>(s: seq<T>, f: T -> bool, g: T -> bool, h: T -> bool)
    requires forall i :: 0 <= i < |s| ==> (h(s[i]) <==> f(s[i]) && g(s[i]))
    ensures Filter(Filter(s, f), g) == Filter(s, h)
  {
    if s != [] {
      FilterTwice(s[1..], f, g, h);
      var rest := Filter(s[1..], f);
      if f(s[0]) {
        assert Filter(s, f) == [s[0]] + rest && ([s[0]] + rest)[1..] == rest;
      } else {
        assert Filter(s, f) == rest;
      }
    }
  }
}
