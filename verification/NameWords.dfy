// What normalising a name keeps: its words, in order, joined by single underscores
// (delete-project-resources.py, normalize_name).

module NameWords {
  import opened CanonicalNames

  predicate IsWord(w: string) { w != "" && forall i :: 0 <= i < |w| ==> Word(w[i]) }

  predicate IsGap(g: string) { forall i :: 0 <= i < |g| ==> !Word(g[i]) }

  /** Words with other characters in front, behind and, at least one, between them. */
  predicate Separated(ws: seq<string>, gaps: seq<string>) {
    && |gaps| == |ws| + 1
    && (forall i :: 0 <= i < |ws| ==> IsWord(ws[i]))
    && (forall i :: 0 <= i < |gaps| ==> IsGap(gaps[i]))
    && (forall i :: 0 < i < |ws| ==> gaps[i] != "")
  }

  function Spread(ws: seq<string>, gaps: seq<string>): string
    requires |gaps| == |ws| + 1
  {
    gaps[0] + if ws == [] then "" else ws[0] + Spread(ws[1..], gaps[1..])
  }

  function Join(ws: seq<string>): string {
    if ws == [] then "" else if |ws| == 1 then ws[0] else ws[0] + "_" + Join(ws[1..])
  }

  lemma {:induction false} CollapseGap(g: string, s: string, gap: bool)
    requires IsGap(g)
    ensures Collapse(g + s, gap) == (if g == "" || gap then "" else "_") + Collapse(s, gap || g != "")
  {
    if g == "" {
      assert g + s == s;
    } else {
      assert (g + s)[1..] == g[1..] + s && (g + s)[0] == g[0];
      CollapseGap(g[1..], s, true);
    }
  }

  lemma {:induction false} CollapseWord(w: string, s: string, gap: bool)
    requires IsWord(w)
    ensures Collapse(w + s, gap) == w + Collapse(s, false)
  {
    assert (w + s)[1..] == w[1..] + s && (w + s)[0] == w[0];
    if |w| == 1 {
      assert w[1..] + s == s;
    } else {
      CollapseWord(w[1..], s, false);
      assert w == [w[0]] + w[1..];
    }
  }

  function Mark(gap: string): string { if gap == "" then "" else "_" }

  /** The words joined, with an underscore where something follows them. */
  lemma {:induction false} CollapseFrom(ws: seq<string>, gaps: seq<string>)
    requires Separated(ws, gaps) && ws != []
    ensures Collapse(ws[0] + Spread(ws[1..], gaps[1..]), false) == Join(ws) + Mark(gaps[|ws|])
    decreases |ws|
  {
    var rest, more := Spread(ws[1..], gaps[1..]), ws[1..];
    CollapseWord(ws[0], rest, false);
    if |ws| == 1 {
      CollapseGap(gaps[1], "", false);
      assert rest == gaps[1] + "" && Collapse("", gaps[1] != "") == "";
    } else {
      var tail := more[0] + Spread(more[1..], gaps[1..][1..]);
      LaterWords(ws, gaps);
      CollapseGap(gaps[1], tail, false);
      SameFlag(more[0], Spread(more[1..], gaps[1..][1..]));
      CollapseFrom(more, gaps[1..]);
      assert Collapse(rest, false) == "_" + (Join(more) + Mark(gaps[|ws|]));
      assert ws[0] + ("_" + (Join(more) + Mark(gaps[|ws|]))) == Join(ws) + Mark(gaps[|ws|]);
    }
  }

  lemma LaterWords(ws: seq<string>, gaps: seq<string>)
    requires Separated(ws, gaps) && |ws| > 1
    ensures Separated(ws[1..], gaps[1..]) && gaps[1] != "" && gaps[1..][|ws[1..]|] == gaps[|ws|]
  {
  }

  lemma SameFlag(w: string, s: string)
    requires IsWord(w)
    ensures Collapse(w + s, true) == Collapse(w + s, false)
  {
    CollapseWord(w, s, true);
    CollapseWord(w, s, false);
  }

  lemma {:induction false} JoinEnds(ws: seq<string>)
    requires ws != [] && forall i :: 0 <= i < |ws| ==> IsWord(ws[i])
    ensures var j := Join(ws); j != "" && Word(j[0]) && Word(j[|j|-1])
  {
    if |ws| > 1 {
      JoinEnds(ws[1..]);
      var j, k := Join(ws), Join(ws[1..]);
      assert j == ws[0] + "_" + k && j[|j|-1] == k[|k|-1];
    }
  }

  lemma Stripped(lead: string, j: string, trail: string)
    requires lead in {"", "_"} && trail in {"", "_"} && j != "" && Word(j[0]) && Word(j[|j|-1])
    ensures StripRight(StripLeft(lead + (j + trail))) == j
  {
    LeftStripped(lead, j + trail);
    RightStripped(j, trail);
  }

  lemma LeftStripped(lead: string, all: string)
    requires lead in {"", "_"} && all != "" && Word(all[0])
    ensures StripLeft(lead + all) == all
  {
    assert StripLeft(all) == all;
    if lead == "" {
      assert lead + all == all;
    } else {
      assert (lead + all)[0] == '_' && (lead + all)[1..] == all;
    }
  }

  lemma RightStripped(j: string, trail: string)
    requires trail in {"", "_"} && j != "" && Word(j[|j|-1])
    ensures StripRight(j + trail) == j
  {
    assert StripRight(j) == j;
    var all := j + trail;
    if trail == "" {
      assert all == j;
    } else {
      assert all[|all|-1] == '_' && all[..|all|-1] == j;
    }
  }

  /** A name whose lower-case form is these words, however spread, is normalised to the words joined. */
  lemma NormalizedWords(lower: Lowering, s: string, ws: seq<string>, gaps: seq<string>)
    requires Separated(ws, gaps) && Lowered(lower, s) == Spread(ws, gaps)
    ensures NormalizeName(lower, s) == Join(ws)
  {
    if ws == [] {
      CollapseGap(gaps[0], "", false);
      assert gaps[0] + "" == Lowered(lower, s) && Collapse("", gaps[0] != "") == "";
      assert StripLeft("") == "" && StripLeft("_") == "" && StripRight("") == "";
    } else {
      var from := ws[0] + Spread(ws[1..], gaps[1..]);
      CollapseGap(gaps[0], from, false);
      SameFlag(ws[0], Spread(ws[1..], gaps[1..]));
      CollapseFrom(ws, gaps);
      JoinEnds(ws);
      Stripped(Mark(gaps[0]), Join(ws), Mark(gaps[|ws|]));
    }
  }

  /** Every text is some words spread. */
  lemma {:induction false} EveryText(s: string) returns (ws: seq<string>, gaps: seq<string>)
    ensures Separated(ws, gaps) && Spread(ws, gaps) == s
  {
    if s == "" {
      ws, gaps := [], [""];
    } else {
      var vs, less := EveryText(s[1..]);
      assert s == [s[0]] + s[1..];
      if !Word(s[0]) {
        ws, gaps := vs, [[s[0]] + less[0]] + less[1..];
        LongerGap(vs, less, s[0], gaps);
      } else if vs != [] && less[0] == "" {
        ws, gaps := [[s[0]] + vs[0]] + vs[1..], less;
        LongerWord(vs, less, s[0], ws);
      } else {
        ws, gaps := [[s[0]]] + vs, [""] + less;
        NextWord(vs, less, s[0], ws, gaps);
      }
    }
  }

  lemma LongerGap(vs: seq<string>, less: seq<string>, c: char, gaps: seq<string>)
    requires Separated(vs, less) && !Word(c) && gaps == [[c] + less[0]] + less[1..]
    ensures Separated(vs, gaps) && Spread(vs, gaps) == [c] + Spread(vs, less)
  {
    LongerGaps(less, c, gaps);
    assert gaps[1..] == less[1..];
    var rest := if vs == [] then "" else vs[0] + Spread(vs[1..], less[1..]);
    assert Spread(vs, gaps) == [c] + less[0] + rest && Spread(vs, less) == less[0] + rest;
    assert [c] + less[0] + rest == [c] + (less[0] + rest);
  }

  lemma LongerGaps(less: seq<string>, c: char, gaps: seq<string>)
    requires less != [] && !Word(c) && gaps == [[c] + less[0]] + less[1..]
    requires forall i :: 0 <= i < |less| ==> IsGap(less[i])
    ensures |gaps| == |less| && gaps[0] != "" && forall i :: 0 <= i < |gaps| ==> IsGap(gaps[i])
    ensures forall i :: 0 < i < |gaps| ==> gaps[i] == less[i]
  {
    forall i | 0 < i < |gaps| ensures gaps[i] == less[i] { }
    assert IsGap(less[0]);
  }

  lemma LongerWord(vs: seq<string>, less: seq<string>, c: char, ws: seq<string>)
    requires Separated(vs, less) && vs != [] && less[0] == "" && Word(c) && ws == [[c] + vs[0]] + vs[1..]
    ensures Separated(ws, less) && Spread(ws, less) == [c] + Spread(vs, less)
  {
    assert ws[1..] == vs[1..];
    forall i | 0 < i < |ws| ensures ws[i] == vs[i] { }
    var rest := Spread(vs[1..], less[1..]);
    assert "" + (([c] + vs[0]) + rest) == [c] + ("" + (vs[0] + rest));
  }

  lemma NextWord(vs: seq<string>, less: seq<string>, c: char, ws: seq<string>, gaps: seq<string>)
    requires Separated(vs, less) && (vs == [] || less[0] != "") && Word(c)
    requires ws == [[c]] + vs && gaps == [""] + less
    ensures Separated(ws, gaps) && Spread(ws, gaps) == [c] + Spread(vs, less)
  {
    assert ws[1..] == vs && gaps[1..] == less;
    forall i | 0 < i < |ws| ensures ws[i] == vs[i-1] && gaps[i] == less[i-1] { }
  }
}
