// Which numbers, and so which names, the shards of a grown cluster carry
// (controller/api.py, MongoDbCluster._create_sharded_instances).

module GrowthNames {
  import opened Filters
  import opened Roles
  import opened Topology
  import ClusterGrowth
  import ShardNames

  function Numbers(rows: seq<Row>): set<nat> { set r | r in rows && r.kind == Member :: r.number }

  /** One number to a shard and one shard to a number. */
  ghost predicate OneToOne(rows: seq<Row>) {
    forall a, b :: a in rows && b in rows && a.kind == Member && b.kind == Member ==>
      (a.shard == b.shard <==> a.number == b.number)
  }

  /** The k live shards are numbered 1 to k. */
  ghost predicate NamedGapless(rows: seq<Row>) {
    OneToOne(rows) && Numbers(rows) == ShardNames.UpTo(|Shards(rows)|)
  }

  function Span(a: nat, m: nat): (s: set<nat>)
    ensures |s| == m && forall n :: n in s <==> a <= n < a + m
  {
    if m == 0 then {} else Span(a, m - 1) + {a + m - 1}
  }

  /** Members only, numbered in step with their shard ids. */
  predicate InStep(rows: seq<Row>, shard: nat, number: nat) {
    forall r :: r in rows ==> r.kind == Member && r.shard >= shard && r.number == number + (r.shard - shard)
  }

  lemma ShardsJoin(a: seq<Row>, b: seq<Row>)
    ensures Shards(a + b) == Shards(a) + Shards(b)
  {
  }

  lemma NumbersJoin(a: seq<Row>, b: seq<Row>)
    ensures Numbers(a + b) == Numbers(a) + Numbers(b)
  {
  }

  lemma OneShardLabels(rows: seq<Row>, first: nat, shard: nat, number: nat, n: nat)
    requires n > 0 && rows == ShardRows(first, shard, number, n)
    ensures Shards(rows) == {shard} && Numbers(rows) == {number} && InStep(rows, shard, number)
  {
    ShardRowsAre(first, shard, number, n);
    assert rows[0] in rows;
  }

  lemma InStepJoin(a: seq<Row>, b: seq<Row>, shard: nat, number: nat, m: nat)
    requires InStep(a, shard, number) && InStep(b, shard + m, number + m)
    ensures InStep(a + b, shard, number)
  {
  }

  lemma GroupParts(sizes: seq<nat>, k: nat, first: nat, next: nat, shard: nat, number: nat)
    requires k < |sizes| && next == first + Total(sizes, k)
    ensures GroupRows(sizes, k + 1, first, shard, number)
            == GroupRows(sizes, k, first, shard, number) + ShardRows(next, shard + k, number + k, sizes[k])
  {
  }

  lemma {:induction false} GroupLabels(sizes: seq<nat>, m: nat, first: nat, shard: nat, number: nat)
    requires m <= |sizes| && forall g :: 0 <= g < |sizes| ==> sizes[g] > 0
    ensures Grouped(GroupRows(sizes, m, first, shard, number), shard, number, m)
  {
    if m > 0 {
      var k, next := m - 1, first + Total(sizes, m - 1);
      var last := ShardRows(next, shard + k, number + k, sizes[k]);
      GroupParts(sizes, k, first, next, shard, number);
      GroupLabels(sizes, k, first, shard, number);
      OneShardLabels(last, next, shard + k, number + k, sizes[k]);
      OneMore(GroupRows(sizes, k, first, shard, number), last, shard, number, k);
    }
  }

  /** The members of m consecutive shards. */
  ghost predicate Grouped(rows: seq<Row>, shard: nat, number: nat, m: nat) {
    Shards(rows) == Span(shard, m) && Numbers(rows) == Span(number, m) && InStep(rows, shard, number)
  }

  lemma OneMore(before: seq<Row>, last: seq<Row>, shard: nat, number: nat, m: nat)
    requires Grouped(before, shard, number, m)
    requires Shards(last) == {shard + m} && Numbers(last) == {number + m} && InStep(last, shard + m, number + m)
    ensures Grouped(before + last, shard, number, m + 1)
  {
    ShardsJoin(before, last);
    NumbersJoin(before, last);
    InStepJoin(before, last, shard, number, m);
  }

  lemma OneToOneJoin(rows: seq<Row>, added: seq<Row>, shard: nat, number: nat)
    requires OneToOne(rows) && InStep(added, shard, number)
    requires forall r :: r in rows && r.kind == Member ==> r.shard < shard && r.number < number
    ensures OneToOne(rows + added)
  {
  }

  lemma NoMembers(rows: seq<Row>)
    requires forall r :: r in rows ==> r.kind != Member
    ensures Shards(rows) == {} && Numbers(rows) == {}
  {
  }

  lemma OneToOneWithout(rows: seq<Row>, last: seq<Row>)
    requires OneToOne(rows) && forall r :: r in last ==> r.kind != Member
    ensures OneToOne(rows + last)
  {
  }

  /** Growing a cluster whose shards are rs1 to rsk by m groups gives rs1 to rs(k+m), one name and one
      fresh shard id to a group. */
  lemma Growth(rows: seq<Row>, sizes: seq<nat>, routers: nat, first: nat, shard: nat)
    requires NamedGapless(rows) && Fresh(rows, first, shard) && forall g :: 0 <= g < |sizes| ==> sizes[g] > 0
    ensures var rows' := GrownRows(rows, sizes, routers, first, shard);
            && NamedGapless(rows') && |Shards(rows')| == |Shards(rows)| + |sizes|
            && Shards(rows') == Shards(rows) + Span(shard, |sizes|) && Shards(rows) !! Span(shard, |sizes|)
  {
    var added, last := GrowthSplit(rows, sizes, routers, first, shard);
    Joined(rows, added, last, shard, |sizes|);
  }

  /** Growth adds the members of consecutive shards, and rows that are none. */
  lemma GrowthSplit(rows: seq<Row>, sizes: seq<nat>, routers: nat, first: nat, shard: nat)
    returns (added: seq<Row>, last: seq<Row>)
    requires forall g :: 0 <= g < |sizes| ==> sizes[g] > 0
    ensures GrownRows(rows, sizes, routers, first, shard) == rows + added + last
    ensures Grouped(added, shard, NextNumber(rows), |sizes|) && forall r :: r in last ==> r.kind != Member
  {
    var number, next := NextNumber(rows), first + Total(sizes, |sizes|);
    added, last := GroupRows(sizes, |sizes|, first, shard, number), PlainRows(next, QueryRouter, routers);
    GrownSum(rows, sizes, routers, first, shard, number, next, added, last);
    GroupLabels(sizes, |sizes|, first, shard, number);
    Routers(next, routers);
  }

  lemma GrownSum(rows: seq<Row>, sizes: seq<nat>, routers: nat, first: nat, shard: nat, number: nat, next: nat,
                 added: seq<Row>, last: seq<Row>)
    requires number == NextNumber(rows) && next == first + Total(sizes, |sizes|)
    requires added == GroupRows(sizes, |sizes|, first, shard, number) && last == PlainRows(next, QueryRouter, routers)
    ensures GrownRows(rows, sizes, routers, first, shard) == rows + added + last
  {
    ClusterGrowth.GrownParts(rows, sizes, routers, first, shard);
  }

  lemma Routers(first: nat, n: nat)
    ensures forall r :: r in PlainRows(first, QueryRouter, n) ==> r.kind != Member
  {
    PlainRowsAre(first, QueryRouter, n);
  }

  lemma Joined(rows: seq<Row>, added: seq<Row>, last: seq<Row>, shard: nat, m: nat)
    requires NamedGapless(rows) && (forall r :: r in rows && r.kind == Member ==> r.shard < shard)
    requires Grouped(added, shard, NextNumber(rows), m) && forall r :: r in last ==> r.kind != Member
    ensures var rows' := rows + added + last;
            && NamedGapless(rows') && |Shards(rows')| == |Shards(rows)| + m
            && Shards(rows') == Shards(rows) + Span(shard, m) && Shards(rows) !! Span(shard, m)
  {
    JoinedLabels(rows, added, last, shard, m);
    JoinedOneToOne(rows, added, last, shard, m);
    Gapless(rows + added + last, |Shards(rows)| + m);
  }

  lemma JoinedLabels(rows: seq<Row>, added: seq<Row>, last: seq<Row>, shard: nat, m: nat)
    requires NamedGapless(rows) && (forall r :: r in rows && r.kind == Member ==> r.shard < shard)
    requires Grouped(added, shard, NextNumber(rows), m) && forall r :: r in last ==> r.kind != Member
    ensures var rows' := rows + added + last;
            && |Shards(rows')| == |Shards(rows)| + m && Numbers(rows') == ShardNames.UpTo(|Shards(rows)| + m)
            && Shards(rows') == Shards(rows) + Span(shard, m) && Shards(rows) !! Span(shard, m)
  {
    LabelsOfAll(rows, added, last);
    Below(rows, shard);
    Counts(Shards(rows), Numbers(rows), shard, m);
  }

  lemma JoinedOneToOne(rows: seq<Row>, added: seq<Row>, last: seq<Row>, shard: nat, m: nat)
    requires NamedGapless(rows) && (forall r :: r in rows && r.kind == Member ==> r.shard < shard)
    requires Grouped(added, shard, NextNumber(rows), m) && forall r :: r in last ==> r.kind != Member
    ensures OneToOne(rows + added + last)
  {
    Below(rows, shard);
    OneToOneJoin(rows, added, shard, NextNumber(rows));
    OneToOneWithout(rows + added, last);
  }

  lemma Gapless(rows: seq<Row>, k: nat)
    requires OneToOne(rows) && |Shards(rows)| == k && Numbers(rows) == ShardNames.UpTo(k)
    ensures NamedGapless(rows)
  {
  }

  lemma LabelsOfAll(rows: seq<Row>, added: seq<Row>, last: seq<Row>)
    requires forall r :: r in last ==> r.kind != Member
    ensures Shards(rows + added + last) == Shards(rows) + Shards(added)
    ensures Numbers(rows + added + last) == Numbers(rows) + Numbers(added)
  {
    ShardsJoin(rows + added, last);
    ShardsJoin(rows, added);
    NumbersJoin(rows + added, last);
    NumbersJoin(rows, added);
    NoMembers(last);
  }

  lemma Below(rows: seq<Row>, shard: nat)
    requires NamedGapless(rows) && forall r :: r in rows && r.kind == Member ==> r.shard < shard
    ensures forall r :: r in rows && r.kind == Member ==> r.number < NextNumber(rows)
    ensures forall s :: s in Shards(rows) ==> s < shard
  {
    forall r | r in rows && r.kind == Member ensures r.number < NextNumber(rows) { assert r.number in Numbers(rows); }
  }

  lemma Counts(shards: set<nat>, numbers: set<nat>, shard: nat, m: nat)
    requires (forall s :: s in shards ==> s < shard) && numbers == ShardNames.UpTo(|shards|)
    ensures shards !! Span(shard, m) && |shards + Span(shard, m)| == |shards| + m
    ensures numbers + Span(|shards| + 1, m) == ShardNames.UpTo(|shards| + m)
  {
  }

  // ---------- When a number is repeated ----------

  /** Growth gives every shard its own number exactly when no live number is among the next ones. */
  lemma OneToOneIff(rows: seq<Row>, sizes: seq<nat>, routers: nat, first: nat, shard: nat)
    requires OneToOne(rows) && Fresh(rows, first, shard) && forall g :: 0 <= g < |sizes| ==> sizes[g] > 0
    ensures OneToOne(GrownRows(rows, sizes, routers, first, shard))
            <==> Numbers(rows) !! Span(NextNumber(rows), |sizes|)
  {
    var added, last := GrowthSplit(rows, sizes, routers, first, shard);
    JoinedIff(rows, added, last, shard, NextNumber(rows), |sizes|);
  }

  lemma JoinedIff(rows: seq<Row>, added: seq<Row>, last: seq<Row>, shard: nat, number: nat, m: nat)
    requires OneToOne(rows) && forall r :: r in rows && r.kind == Member ==> r.shard < shard
    requires Grouped(added, shard, number, m) && forall r :: r in last ==> r.kind != Member
    ensures OneToOne(rows + added + last) <==> Numbers(rows) !! Span(number, m)
  {
    if Numbers(rows) !! Span(number, m) {
      Separate(rows, added, shard, number, m);
      OneToOneWithout(rows + added, last);
    } else {
      var n :| n in Numbers(rows) && n in Numbers(added);
      Clash(rows, added, last, shard, n);
    }
  }

  lemma Separate(rows: seq<Row>, added: seq<Row>, shard: nat, number: nat, m: nat)
    requires OneToOne(rows) && forall r :: r in rows && r.kind == Member ==> r.shard < shard
    requires Grouped(added, shard, number, m) && Numbers(rows) !! Span(number, m)
    ensures OneToOne(rows + added)
  {
    forall a, b | a in rows && b in added && a.kind == Member ensures a.shard != b.shard && a.number != b.number {
      assert a.number in Numbers(rows) && b.number in Numbers(added);
    }
    forall a, b | a in rows + added && b in rows + added && a.kind == Member && b.kind == Member
      ensures a.shard == b.shard <==> a.number == b.number
    {
      if a in rows && b in added { } else if b in rows && a in added { }
    }
  }

  lemma Clash(rows: seq<Row>, added: seq<Row>, last: seq<Row>, shard: nat, n: nat)
    requires forall r :: r in rows && r.kind == Member ==> r.shard < shard
    requires forall r :: r in added ==> r.kind == Member && r.shard >= shard
    requires n in Numbers(rows) && n in Numbers(added)
    ensures !OneToOne(rows + added + last)
  {
    var a :| a in rows && a.kind == Member && a.number == n;
    var b :| b in added && b.number == n;
    assert a in rows + added + last && b in rows + added + last;
  }

  /** Shards and numbers are equally many when they go together. */
  lemma {:induction false} EquallyMany(rows: seq<Row>)
    requires OneToOne(rows)
    ensures |Numbers(rows)| == |Shards(rows)|
  {
    if rows != [] {
      var rest := rows[1..];
      assert rows == [rows[0]] + rest;
      EquallyMany(rest);
      ShardsJoin([rows[0]], rest);
      NumbersJoin([rows[0]], rest);
      if rows[0].kind == Member {
        OneRow(rows[0]);
        SeenTogether(rows, rest);
        OneMoreOf(rows[0].shard, Shards(rest));
        OneMoreOf(rows[0].number, Numbers(rest));
      } else {
        NoMembers([rows[0]]);
      }
    } else {
      NoMembers(rows);
    }
  }

  lemma OneRow(r: Row)
    requires r.kind == Member
    ensures Shards([r]) == {r.shard} && Numbers([r]) == {r.number}
  {
    var one := [r];
    assert one[0] in one && forall x :: x in one ==> x == r;
    assert r.shard in Shards(one) && r.number in Numbers(one);
  }

  lemma OneMoreOf(x: nat, s: set<nat>)
    ensures |{x} + s| == |s| + if x in s then 0 else 1
  {
    if x in s { assert {x} + s == s; } else { assert {x} !! s; }
  }

  lemma SeenTogether(rows: seq<Row>, rest: seq<Row>)
    requires OneToOne(rows) && rows != [] && rest == rows[1..] && rows[0].kind == Member
    ensures rows[0].shard in Shards(rest) <==> rows[0].number in Numbers(rest)
  {
  }

  /** No growth that the controller accepts repeats a number, whatever its shards and routers, exactly when the
      k live shards are numbered 1 to k. */
  lemma NeverRepeatsIff(rows: seq<Row>, first: nat, shard: nat)
    requires OneToOne(rows) && Fresh(rows, first, shard) && 0 !in Numbers(rows)
    ensures (forall sizes: seq<nat>, routers: nat ::
               BigEnough(sizes) ==> OneToOne(GrownRows(rows, sizes, routers, first, shard)))
            <==> NamedGapless(rows)
  {
    EquallyMany(rows);
    var live := Numbers(rows);
    forall sizes: seq<nat>, routers: nat | BigEnough(sizes)
      ensures OneToOne(GrownRows(rows, sizes, routers, first, shard)) <==> !ShardNames.Repeats(live, |sizes|)
    {
      OneToOneIff(rows, sizes, routers, first, shard);
      assert Span(NextNumber(rows), |sizes|) == ShardNames.NextNumbers(|live|, |sizes|);
    }
    if forall sizes: seq<nat>, routers: nat ::
         BigEnough(sizes) ==> OneToOne(GrownRows(rows, sizes, routers, first, shard)) {
      forall m: nat ensures !ShardNames.Repeats(live, m) {
        assert OneToOne(GrownRows(rows, Smallest(m), 0, first, shard));
      }
    }
    ShardNames.NoRepeatIff(live);
  }

  /** No group is too small. */
  predicate BigEnough(sizes: seq<nat>) { forall g :: 0 <= g < |sizes| ==> sizes[g] >= MIN_MEMBERS }

  /** m groups of the smallest size. */
  function Smallest(m: nat): (s: seq<nat>)
    ensures |s| == m && BigEnough(s)
  {
    seq(m, _ => MIN_MEMBERS)
  }

  // ---------- A run that repeats a number ----------

  const FIRST_SHARD := [Row(0, Member, 0, 1), Row(1, Member, 0, 1)]
  const OTHERS := [Row(2, ConfigServer, 0, 0), Row(3, ConfigServer, 0, 0), Row(4, QueryRouter, 0, 0)]
  const SECOND_SHARD := [Row(5, Member, 1, 2), Row(6, Member, 1, 2)]
  const THIRD_SHARD := [Row(7, Member, 2, 2), Row(8, Member, 2, 2)]

  lemma Pair(first: nat, shard: nat, number: nat)
    ensures ShardRows(first, shard, number, 2)
            == [Row(first, Member, shard, number), Row(first + 1, Member, shard, number)]
  {
    ShardRowsAre(first, shard, number, 2);
  }

  lemma CreatedPair()
    ensures CreatedRows(2, 2, 1) == FIRST_SHARD + OTHERS
  {
    Pair(0, 0, 1);
    PlainRowsAre(2, ConfigServer, 2);
    PlainRowsAre(4, QueryRouter, 1);
    assert PlainRows(2, ConfigServer, 2) == [Row(2, ConfigServer, 0, 0), Row(3, ConfigServer, 0, 0)];
    assert PlainRows(4, QueryRouter, 1) == [Row(4, QueryRouter, 0, 0)];
  }

  lemma GrownPair(rows: seq<Row>, first: nat, shard: nat)
    ensures GrownRows(rows, [2], 0, first, shard)
            == rows + [Row(first, Member, shard, NextNumber(rows)), Row(first + 1, Member, shard, NextNumber(rows))]
  {
    var number := NextNumber(rows);
    ClusterGrowth.GrownParts(rows, [2], 0, first, shard);
    Pair(first, shard, number);
    assert Total([2], 0) == 0 && GroupRows([2], 0, first, shard, number) == [];
    assert GroupRows([2], 1, first, shard, number) == ShardRows(first, shard, number, 2);
  }

  /** Creating a cluster, growing it by a shard, removing the first shard and growing again: four states of a
      run in which the live second shard and the new one both are number 2. */
  lemma RepeatedNumber()
    ensures var grow1, shrink, grow2 := Grow([2], 0, 5, 1), Shrink({0, 1}), Grow([2], 0, 7, 2);
            var s0, s1 := CreatedRows(2, 2, 1), FIRST_SHARD + OTHERS + SECOND_SHARD;
            var s2, s3 := OTHERS + SECOND_SHARD, OTHERS + SECOND_SHARD + THIRD_SHARD;
            && IsRun([s0, s1, s2, s3], [grow1, shrink, grow2]) && ShardedInv(s0)
            && OneToOne(s2) && !OneToOne(s3)
  {
    CreateMakes(2, 2, 1);
    CreatedPair();
    FirstGrowth();
    FirstShardRemoved();
    FirstRemovalAllowed();
    SecondGrowth();
    SecondAndThird();
    ThreeSteps(FIRST_SHARD + OTHERS, FIRST_SHARD + OTHERS + SECOND_SHARD, OTHERS + SECOND_SHARD,
               OTHERS + SECOND_SHARD + THIRD_SHARD, Grow([2], 0, 5, 1), Shrink({0, 1}), Grow([2], 0, 7, 2));
  }

  lemma ThreeSteps(s0: seq<Row>, s1: seq<Row>, s2: seq<Row>, s3: seq<Row>, a: Step, b: Step, c: Step)
    requires Completes(s0, a, s1) && Completes(s1, b, s2) && Completes(s2, c, s3)
    ensures IsRun([s0, s1, s2, s3], [a, b, c])
  {
    var states, steps := [s0, s1, s2, s3], [a, b, c];
    forall i | 0 <= i < 3 ensures Completes(states[i], steps[i], states[i+1]) {
      if i == 0 { } else if i == 1 { } else { }
    }
  }

  lemma SecondAndThird()
    ensures OneToOne(OTHERS + SECOND_SHARD) && !OneToOne(OTHERS + SECOND_SHARD + THIRD_SHARD)
  {
    var s3 := OTHERS + SECOND_SHARD + THIRD_SHARD;
    assert s3[3] in s3 && s3[5] in s3;
  }

  lemma FirstGrowth()
    ensures Completes(FIRST_SHARD + OTHERS, Grow([2], 0, 5, 1), FIRST_SHARD + OTHERS + SECOND_SHARD)
  {
    var s0 := FIRST_SHARD + OTHERS;
    GrownPair(s0, 5, 1);
    assert s0[0] in s0 && s0[2] in s0;
    assert Shards(s0) == {0};
  }

  lemma FirstShardRemoved()
    ensures Without(FIRST_SHARD + OTHERS + SECOND_SHARD, {0, 1}) == OTHERS + SECOND_SHARD
  {
    var ids := {0, 1};
    assert FIRST_SHARD + OTHERS + SECOND_SHARD == FIRST_SHARD + (OTHERS + SECOND_SHARD);
    FilterJoin(FIRST_SHARD, OTHERS + SECOND_SHARD, NotIn(ids));
    FilterNone(FIRST_SHARD, NotIn(ids));
    FilterAll(OTHERS + SECOND_SHARD, NotIn(ids));
  }

  lemma FirstRemovalAllowed()
    ensures Allowed(FIRST_SHARD + OTHERS + SECOND_SHARD, Shrink({0, 1}))
  {
    var s1, ids := FIRST_SHARD + OTHERS + SECOND_SHARD, {0, 1};
    assert s1[0] in s1 && s1[1] in s1 && s1[2] in s1 && s1[4] in s1 && s1[5] in s1;
    assert 0 in Ids(s1) && 1 in Ids(s1);
    forall r | r in s1 && r.kind == Member ensures r.shard == 0 <==> r.id in ids { Labelled(r); }
    forall r | r in s1 && r.kind == ConfigServer ensures r.id !in ids { Labelled(r); }
  }

  lemma Labelled(r: Row)
    requires r in FIRST_SHARD + OTHERS + SECOND_SHARD
    ensures r.id in {0, 1} <==> r.kind == Member && r.shard == 0
    ensures r.kind == Member ==> r.shard in {0, 1}
  {
  }

  lemma SecondGrowth()
    ensures Completes(OTHERS + SECOND_SHARD, Grow([2], 0, 7, 2), OTHERS + SECOND_SHARD + THIRD_SHARD)
  {
    var s2 := OTHERS + SECOND_SHARD;
    GrownPair(s2, 7, 2);
    assert s2[3] in s2 && s2[0] in s2;
    assert Shards(s2) == {1};
  }
}
