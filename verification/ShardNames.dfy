// Replica-set names of shards: "rs" and a number one above the count of live shards
// (controller/api.py, MongoDbCluster._create_sharded_instances) and what a repeated name does at the
// router (service.py, MongoDbApp.add_shard and remove_shard).

module ShardNames {

  function Digit(d: nat): char
    requires d < 10
  {
    ['0', '1', '2', '3', '4', '5', '6', '7', '8', '9'][d]
  }

  function Decimal(n: nat): (s: string)
    ensures s != ""
  {
    if n < 10 then [Digit(n)] else Decimal(n / 10) + [Digit(n % 10)]
  }

  function NameOf(n: nat): string { "rs" + Decimal(n) }

  /** What a text of digits stands for. */
  function Value(s: string): nat
    requires Digits(s)
  {
    if s == "" then 0 else 10 * Value(s[..|s|-1]) + DigitValue(s[|s|-1])
  }

  predicate Digits(s: string) { forall i :: 0 <= i < |s| ==> '0' <= s[i] <= '9' }

  function DigitValue(c: char): nat
    requires '0' <= c <= '9'
  {
    c as nat - '0' as nat
  }

  lemma DigitReads(d: nat)
    requires d < 10
    ensures '0' <= Digit(d) <= '9' && DigitValue(Digit(d)) == d
  {
  }

  /** The digits of a number, the highest first and not a zero. */
  lemma {:induction false} DecimalReads(n: nat)
    ensures Digits(Decimal(n)) && Value(Decimal(n)) == n && (n > 0 ==> Decimal(n)[0] != '0')
  {
    DigitReads(n % 10);
    if n < 10 {
      var s := [Digit(n)];
      assert s[..|s|-1] == "" && Value("") == 0;
    } else {
      DecimalReads(n / 10);
      OneMoreDigit(Decimal(n / 10), n % 10);
    }
  }

  lemma OneMoreDigit(s: string, d: nat)
    requires d < 10 && Digits(s)
    ensures Digits(s + [Digit(d)]) && Value(s + [Digit(d)]) == 10 * Value(s) + d
  {
    var t := s + [Digit(d)];
    DigitReads(d);
    assert t[..|t|-1] == s;
  }

  lemma DigitInjective(a: nat, b: nat)
    requires a < 10 && b < 10 && Digit(a) == Digit(b)
    ensures a == b
  {
  }

  lemma {:induction false} DecimalInjective(m: nat, n: nat)
    requires Decimal(m) == Decimal(n)
    ensures m == n
  {
    var s, t := Decimal(m), Decimal(n);
    assert m >= 10 <==> |s| > 1;
    assert n >= 10 <==> |t| > 1;
    assert s[|s|-1] == Digit(m % 10) && t[|t|-1] == Digit(n % 10);
    DigitInjective(m % 10, n % 10);
    if m >= 10 && n >= 10 {
      assert s[..|s|-1] == Decimal(m / 10) && t[..|t|-1] == Decimal(n / 10);
      DecimalInjective(m / 10, n / 10);
    }
  }

  lemma NamesInjective(m: nat, n: nat)
    requires NameOf(m) == NameOf(n)
    ensures m == n
  {
    assert NameOf(m)[2..] == Decimal(m) && NameOf(n)[2..] == Decimal(n);
    DecimalInjective(m, n);
  }

  /** The numbers 1 to k. */
  function UpTo(k: nat): (s: set<nat>)
    ensures |s| == k && forall n :: n in s <==> 1 <= n <= k
  {
    if k == 0 then {} else UpTo(k - 1) + {k}
  }

  /** The numbers the next m shards get. */
  function NextNumbers(k: nat, m: nat): (s: set<nat>)
    ensures forall n :: n in s <==> k < n <= k + m
  {
    if m == 0 then {} else NextNumbers(k, m - 1) + {k + m}
  }

  /** One of the next m shards gets the number of a live one. */
  predicate Repeats(live: set<nat>, m: nat) {
    live * NextNumbers(|live|, m) != {}
  }

  /** Growth repeats no live name, however many shards are added, exactly when the live shards are
      numbered 1 to k without a gap. */
  lemma NoRepeatIff(live: set<nat>)
    requires 0 !in live
    ensures (forall m: nat :: !Repeats(live, m)) <==> live == UpTo(|live|)
  {
    var k := |live|;
    if forall m: nat :: !Repeats(live, m) {
      forall n | n in live ensures n in UpTo(k) {
        assert !Repeats(live, n);
        assert n !in live * NextNumbers(k, n);
      }
      SubsetSameSize(live, UpTo(k));
    } else {
      var m: nat :| Repeats(live, m);
      var n :| n in live * NextNumbers(k, m);
    }
  }

  lemma {:induction false} SubsetSameSize(a: set<nat>, b: set<nat>)
    requires a <= b && |a| == |b|
    ensures a == b
  {
    if a != {} {
      var x :| x in a;
      SubsetSameSize(a - {x}, b - {x});
    }
  }

  // ---------- The router's list of shards ----------

  datatype AddReply = Added | Already

  function AddShard(registry: map<string, string>, name: string, member: string): (map<string, string>, AddReply) {
    if name in registry then (registry, Already) else (registry[name := name + "/" + member], Added)
  }

  /** A shard is registered exactly when its name is not taken. */
  lemma RegisteredIff(registry: map<string, string>, n: nat, live: set<nat>, member: string)
    requires registry.Keys == set x | x in live :: NameOf(x)
    ensures n !in live <==> AddShard(registry, NameOf(n), member).1 == Added
    ensures n !in live ==> AddShard(registry, NameOf(n), member).0.Keys == set x | x in live + {n} :: NameOf(x)
    ensures n in live ==> AddShard(registry, NameOf(n), member).0 == registry
  {
    if NameOf(n) in registry {
      var x :| x in live && NameOf(x) == NameOf(n);
      NamesInjective(x, n);
    }
  }
}
