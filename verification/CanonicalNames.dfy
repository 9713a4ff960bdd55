// Canonical service and resource names (delete-project-resources.py, normalize_name, canonical_service
// and canonical_resource).

module CanonicalNames {

  predicate Word(c: char) { 'a' <= c <= 'z' || '0' <= c <= '9' }

  /** Lower case is a parameter; what it does outside ASCII is left open. */
  type Lowering = char -> string

  predicate LowersAscii(lower: Lowering) { forall c | Word(c) || c == '_' || c == '-' :: lower(c) == [c] }

  function Lowered(lower: Lowering, s: string): string {
    if s == "" then "" else lower(s[0]) + Lowered(lower, s[1..])
  }

  /** Every run of other characters becomes one underscore; `gap` says whether a run is being skipped. */
  function Collapse(s: string, gap: bool): string {
    if s == "" then ""
    else if Word(s[0]) then [s[0]] + Collapse(s[1..], false)
    else (if gap then "" else "_") + Collapse(s[1..], true)
  }

  function StripLeft(s: string): string { if s != "" && s[0] == '_' then StripLeft(s[1..]) else s }

  function StripRight(s: string): string
    decreases |s|
  {
    if s != "" && s[|s|-1] == '_' then StripRight(s[..|s|-1]) else s
  }

  function NormalizeName(lower: Lowering, s: string): string {
    StripRight(StripLeft(Collapse(Lowered(lower, s), false)))
  }

  /** Lower-case words joined by single underscores. */
  predicate Normal(s: string) {
    && (forall i :: 0 <= i < |s| ==> Word(s[i]) || (s[i] == '_' && 0 < i < |s| - 1))
    && SingleGaps(s)
  }

  predicate SingleGaps(s: string) { forall i :: 0 < i < |s| ==> !(s[i-1] == '_' && s[i] == '_') }

  predicate Gapped(s: string) { (forall i :: 0 <= i < |s| ==> Word(s[i]) || s[i] == '_') && SingleGaps(s) }

  lemma {:induction false} CollapseGapped(s: string, gap: bool)
    ensures Gapped(Collapse(s, gap))
    ensures gap && Collapse(s, gap) != "" ==> Collapse(s, gap)[0] != '_'
  {
    if s != "" { CollapseGapped(s[1..], !Word(s[0])); }
  }

  lemma {:induction false} StripLeftGapped(s: string)
    requires Gapped(s)
    ensures Gapped(StripLeft(s)) && (StripLeft(s) != "" ==> Word(StripLeft(s)[0]))
  {
    if s != "" && s[0] == '_' { StripLeftGapped(s[1..]); }
  }

  lemma {:induction false} StripRightNormal(s: string)
    requires Gapped(s) && (s != "" ==> Word(s[0]))
    ensures Normal(StripRight(s))
    decreases |s|
  {
    if s != "" && s[|s|-1] == '_' { StripRightNormal(s[..|s|-1]); }
  }

  lemma NormalizeNormal(lower: Lowering, s: string)
    ensures Normal(NormalizeName(lower, s))
  {
    CollapseGapped(Lowered(lower, s), false);
    StripLeftGapped(Collapse(Lowered(lower, s), false));
    StripRightNormal(StripLeft(Collapse(Lowered(lower, s), false)));
  }

  /** Underscores written as dashes. */
  function Dashed(s: string): (d: string)
    ensures |d| == |s| && forall i :: 0 <= i < |s| ==> d[i] == if s[i] == '_' then '-' else s[i]
  {
    if s == "" then "" else [if s[0] == '_' then '-' else s[0]] + Dashed(s[1..])
  }

  lemma {:induction false} LoweredSame(lower: Lowering, s: string)
    requires LowersAscii(lower) && forall i :: 0 <= i < |s| ==> Word(s[i]) || s[i] == '_' || s[i] == '-'
    ensures Lowered(lower, s) == s
  {
    if s != "" {
      LoweredSame(lower, s[1..]);
      assert Word(s[0]) || s[0] == '_' || s[0] == '-';
    }
  }

  /** A gapped name, dashed or not, collapses to itself. */
  lemma {:induction false} CollapseSame(s: string, t: string, gap: bool)
    requires Gapped(s) && (t == s || t == Dashed(s)) && (gap && s != "" ==> s[0] != '_')
    ensures Collapse(t, gap) == s
    decreases |s|
  {
    if s != "" {
      assert t[1..] == if t == s then s[1..] else Dashed(s[1..]);
      CollapseSame(s[1..], t[1..], s[0] == '_');
    }
  }

  /** Normalising a normal name, written with underscores or dashes, gives the name. */
  lemma NormalFixed(lower: Lowering, s: string, t: string)
    requires LowersAscii(lower) && Normal(s) && (t == s || t == Dashed(s))
    ensures NormalizeName(lower, t) == s
  {
    LoweredSame(lower, t);
    CollapseSame(s, t, false);
  }

  /** Normalisation is a projection onto the normal names. */
  lemma NormalizeProjects(lower: Lowering, s: string)
    requires LowersAscii(lower)
    ensures NormalizeName(lower, NormalizeName(lower, s)) == NormalizeName(lower, s)
    ensures NormalizeName(lower, s) == s <==> Normal(s)
  {
    NormalizeNormal(lower, s);
    NormalFixed(lower, NormalizeName(lower, s), NormalizeName(lower, s));
    if Normal(s) { NormalFixed(lower, s, s); }
  }

  // ---------- Aliases ----------

  type Aliases = map<string, string>

  function CanonicalService(lower: Lowering, aliases: Aliases, s: string): string {
    var n := NormalizeName(lower, s);
    if n in aliases then aliases[n] else Dashed(n)
  }

  function CanonicalResource(lower: Lowering, aliases: Aliases, s: string): string {
    var n := NormalizeName(lower, s);
    if n in aliases then aliases[n] else n
  }

  /** Canonical service names are stable, for all names, exactly when every usable alias target is. */
  lemma ServiceIdempotentIff(lower: Lowering, aliases: Aliases)
    requires LowersAscii(lower)
    ensures (forall s ::
              var once := CanonicalService(lower, aliases, s); CanonicalService(lower, aliases, once) == once)
            <==> forall n :: n in aliases && Normal(n) ==> CanonicalService(lower, aliases, aliases[n]) == aliases[n]
  {
    if forall n :: n in aliases && Normal(n) ==> CanonicalService(lower, aliases, aliases[n]) == aliases[n] {
      forall s
        ensures var once := CanonicalService(lower, aliases, s); CanonicalService(lower, aliases, once) == once
      {
        var n := NormalizeName(lower, s);
        NormalizeNormal(lower, s);
        if n !in aliases { NormalFixed(lower, n, Dashed(n)); }
      }
    }
    if forall s :: var once := CanonicalService(lower, aliases, s); CanonicalService(lower, aliases, once) == once {
      forall n | n in aliases && Normal(n) ensures CanonicalService(lower, aliases, aliases[n]) == aliases[n] {
        NormalFixed(lower, n, n);
        assert CanonicalService(lower, aliases, n) == aliases[n];
      }
    }
  }

  /** The same for resource names. */
  lemma ResourceIdempotentIff(lower: Lowering, aliases: Aliases)
    requires LowersAscii(lower)
    ensures (forall s ::
              var once := CanonicalResource(lower, aliases, s); CanonicalResource(lower, aliases, once) == once)
            <==> forall n :: n in aliases && Normal(n) ==> CanonicalResource(lower, aliases, aliases[n]) == aliases[n]
  {
    if forall n :: n in aliases && Normal(n) ==> CanonicalResource(lower, aliases, aliases[n]) == aliases[n] {
      forall s
        ensures var once := CanonicalResource(lower, aliases, s); CanonicalResource(lower, aliases, once) == once
      {
        var n := NormalizeName(lower, s);
        NormalizeNormal(lower, s);
        if n !in aliases { NormalFixed(lower, n, n); }
      }
    }
    if forall s :: var once := CanonicalResource(lower, aliases, s); CanonicalResource(lower, aliases, once) == once {
      forall n | n in aliases && Normal(n) ensures CanonicalResource(lower, aliases, aliases[n]) == aliases[n] {
        NormalFixed(lower, n, n);
        assert CanonicalResource(lower, aliases, n) == aliases[n];
      }
    }
  }
}
