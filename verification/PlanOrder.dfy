// The order of a deletion plan: phase first, then the key of the resource, as Python sorts tuples.

module PlanOrder {
  import opened DeletionPlan

  predicate TextLess(s: string, t: string) {
    t != "" && (s == "" || s[0] < t[0] || (s[0] == t[0] && TextLess(s[1..], t[1..])))
  }

  lemma {:induction false} TextTrichotomy(s: string, t: string)
    ensures TextLess(s, t) || s == t || TextLess(t, s)
    ensures !(TextLess(s, t) && TextLess(t, s)) && !TextLess(s, s)
  {
    if s != "" {
      TextTrichotomy(s[1..], s[1..]);
      if t != "" && s[0] == t[0] {
        TextTrichotomy(s[1..], t[1..]);
        assert s == [s[0]] + s[1..] && t == [t[0]] + t[1..];
      }
    }
  }

  lemma {:induction false} TextTransitive(s: string, t: string, u: string)
    requires TextLess(s, t) && TextLess(t, u)
    ensures TextLess(s, u)
  {
    if s != "" && s[0] == t[0] == u[0] { TextTransitive(s[1..], t[1..], u[1..]); }
  }

  /** Texts compare by their first different characters, and a prefix comes first. */
  lemma {:induction false} TextLessAt(p: string, s: string, t: string)
    ensures TextLess(p + s, p + t) <==> TextLess(s, t)
    ensures s == "" && t != "" ==> TextLess(s, t)
    ensures s != "" && t != "" && s[0] < t[0] ==> TextLess(s, t)
  {
    if p == "" {
      assert p + s == s && p + t == t;
    } else {
      assert (p + s)[1..] == p[1..] + s && (p + t)[1..] == p[1..] + t;
      TextLessAt(p[1..], s, t);
    }
  }

  predicate KeyLess(a: Key, b: Key) {
    || TextLess(a.0, b.0)
    || (a.0 == b.0 && (TextLess(a.1, b.1) || (a.1 == b.1 && TextLess(a.2, b.2))))
  }

  predicate Before(a: Operation, b: Operation) {
    a.phase < b.phase || (a.phase == b.phase && KeyLess(KeyOf(a.resource), KeyOf(b.resource)))
  }

  lemma BeforeTotal(a: Operation, b: Operation)
    ensures Before(a, b) || Before(b, a) || (a.phase == b.phase && KeyOf(a.resource) == KeyOf(b.resource))
    ensures !(Before(a, b) && Before(b, a)) && !Before(a, a)
  {
    var k, l := KeyOf(a.resource), KeyOf(b.resource);
    TextTrichotomy(k.0, l.0);
    TextTrichotomy(k.1, l.1);
    TextTrichotomy(k.2, l.2);
  }

  lemma BeforeTransitive(a: Operation, b: Operation, c: Operation)
    requires Before(a, b) && Before(b, c)
    ensures Before(a, c)
  {
    var k, l, m := KeyOf(a.resource), KeyOf(b.resource), KeyOf(c.resource);
    if TextLess(k.0, l.0) && TextLess(l.0, m.0) { TextTransitive(k.0, l.0, m.0); }
    if TextLess(k.1, l.1) && TextLess(l.1, m.1) { TextTransitive(k.1, l.1, m.1); }
    if TextLess(k.2, l.2) && TextLess(l.2, m.2) { TextTransitive(k.2, l.2, m.2); }
  }

  predicate StrictlySorted(ops: seq<Operation>) {
    forall i, j :: 0 <= i < j < |ops| ==> Before(ops[i], ops[j])
  }

  function Insert(op: Operation, ops: seq<Operation>): (r: seq<Operation>)
    ensures forall x :: x in r <==> x == op || x in ops
  {
    if ops == [] then [op]
    else if Before(op, ops[0]) then [op] + ops
    else
      var r := [ops[0]] + Insert(op, ops[1..]);
      assert forall x :: x in ops <==> x == ops[0] || x in ops[1..];
      r
  }

  /** list.sort on operations. */
  function Sort(ops: seq<Operation>): (r: seq<Operation>)
    ensures forall x :: x in r <==> x in ops
  {
    if ops == [] then [] else Insert(ops[0], Sort(ops[1..]))
  }

  predicate KeysDistinct(ops: seq<Operation>) {
    forall i, j :: 0 <= i < j < |ops| ==> KeyOf(ops[i].resource) != KeyOf(ops[j].resource)
  }

  lemma {:induction false} InsertSorted(op: Operation, ops: seq<Operation>)
    requires StrictlySorted(ops) && forall x :: x in ops ==> KeyOf(x.resource) != KeyOf(op.resource)
    ensures StrictlySorted(Insert(op, ops))
  {
    if ops != [] {
      var rest := Insert(op, ops[1..]);
      if Before(op, ops[0]) {
        forall j | 0 <= j < |ops| ensures Before(op, ops[j]) {
          if j > 0 { BeforeTransitive(op, ops[0], ops[j]); }
        }
      } else {
        BeforeTotal(op, ops[0]);
        InsertSorted(op, ops[1..]);
        forall x | x in rest ensures Before(ops[0], x) {
          if x != op {
            var j :| 0 <= j < |ops[1..]| && ops[1..][j] == x;
            assert Before(ops[0], ops[j+1]);
          }
        }
      }
    }
  }

  lemma {:induction false} SortSorted(ops: seq<Operation>)
    requires KeysDistinct(ops)
    ensures StrictlySorted(Sort(ops))
  {
    if ops != [] {
      SortSorted(ops[1..]);
      InsertSorted(ops[0], Sort(ops[1..]));
    }
  }

  /** A strictly sorted plan is determined by what it contains. */
  lemma {:induction false} SortedUnique(a: seq<Operation>, b: seq<Operation>)
    requires StrictlySorted(a) && StrictlySorted(b) && forall x :: x in a <==> x in b
    ensures a == b
  {
    assert a != [] ==> a[0] in b;
    assert b != [] ==> b[0] in a;
    if a != [] && b != [] {
      FirstSame(a, b);
      assert a == [a[0]] + a[1..] && b == [b[0]] + b[1..];
      assert forall x :: x in a <==> x == a[0] || x in a[1..];
      assert forall x :: x in b <==> x == b[0] || x in b[1..];
      SortedUnique(a[1..], b[1..]);
    }
  }

  lemma FirstSame(a: seq<Operation>, b: seq<Operation>)
    requires StrictlySorted(a) && StrictlySorted(b) && a != [] && b != [] && forall x :: x in a <==> x in b
    ensures a[0] == b[0] && a[0] !in a[1..] && b[0] !in b[1..]
  {
    assert b[0] in a && a[0] in b;
    var i :| 0 <= i < |a| && a[i] == b[0];
    var j :| 0 <= j < |b| && b[j] == a[0];
    BeforeTotal(a[0], b[0]);
    BeforeTotal(a[0], a[0]);
    BeforeTotal(b[0], b[0]);
  }

  /** Of two operations the earlier has the smaller phase, or in one phase the smaller service, or of one service the
      smaller kind, or of one kind the smaller identifier. */
  lemma SortedReads(ops: seq<Operation>, i: nat, j: nat)
    requires StrictlySorted(ops) && i < j < |ops|
    ensures var a, b := ops[i], ops[j];
            && a.phase <= b.phase
            && (a.phase == b.phase && a.resource.service != b.resource.service ==>
                  TextLess(a.resource.service, b.resource.service))
            && (a.phase == b.phase && a.resource.service == b.resource.service && a.resource.kind != b.resource.kind ==>
                  TextLess(a.resource.kind, b.resource.kind))
            && (a.phase == b.phase && a.resource.service == b.resource.service && a.resource.kind == b.resource.kind ==>
                  TextLess(a.resource.identifier, b.resource.identifier))
  {
    assert Before(ops[i], ops[j]);
    TextTrichotomy(ops[i].resource.service, ops[j].resource.service);
    TextTrichotomy(ops[i].resource.kind, ops[j].resource.kind);
  }
}
