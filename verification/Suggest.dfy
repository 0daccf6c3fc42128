/** The similarity suggester: the best match per metric, filtered, rounded and ranked. */
module Suggesters {
  import opened PyStrings
  import opened Client

  /** The similarity ratio and the rounding to four places are parameters. */
  datatype Scorer = Scorer(ratio: (string, string) -> real, round: real -> real) {
    ghost predicate Valid() {
      && (forall a, b :: 0.0 <= ratio(a, b) <= 1.0)
      && (forall a :: ratio(a, a) == 1.0)
      && (forall x, y :: x <= y ==> round(x) <= round(y))
      && round(0.0) == 0.0 && round(1.0) == 1.0
    }
  }

  datatype Suggestion = Suggestion(metricKey: string, score: real)

  /** The best ratio between the folded name and any term, 0 when there is none. */
  function Best(sc: Scorer, name: string, terms: seq<string>): real {
    if terms == [] then 0.0 else
      var last := sc.ratio(name, Casefold(terms[|terms| - 1]));
      if |terms| == 1 then last else
        var best := Best(sc, name, terms[..|terms| - 1]);
        if last > best then last else best
  }

  function Scored(sc: Scorer, name: string, entries: seq<TermEntry>): seq<Suggestion> {
    if entries == [] then [] else
      var e := entries[|entries| - 1];
      var best := Best(sc, name, e.terms);
      Scored(sc, name, entries[..|entries| - 1])
        + if best > 0.0 then [Suggestion(e.metricKey, sc.round(best))] else []
  }

  /** Higher score first, then the metric key. */
  predicate Outranks(a: Suggestion, b: Suggestion) {
    a.score > b.score || (a.score == b.score && AtMost(a.metricKey, b.metricKey))
  }

  predicate InRankOrder(xs: seq<Suggestion>) {
    forall i, j :: 0 <= i < j < |xs| ==> Outranks(xs[i], xs[j])
  }

  /** In rank order the scores descend, and equal scores are in the order of their keys: the first
      place where the keys differ decides, or the shorter one comes first. */
  lemma RankSpelled(xs: seq<Suggestion>, i: nat, j: nat)
    requires InRankOrder(xs) && i < j < |xs|
    ensures xs[i].score >= xs[j].score
    ensures xs[i].score == xs[j].score ==>
              xs[i].metricKey <= xs[j].metricKey || exists k: nat :: SmallerAt(xs[i].metricKey, xs[j].metricKey, k)
  {
    assert Outranks(xs[i], xs[j]);
    AtMostSpelled(xs[i].metricKey, xs[j].metricKey);
  }

  function InsertRanked(xs: seq<Suggestion>, s: Suggestion): seq<Suggestion> {
    if xs == [] then [s]
    else if Outranks(xs[0], s) then [xs[0]] + InsertRanked(xs[1..], s)
    else [s] + xs
  }

  /** Stable sort by rank. */
  function Ranked(xs: seq<Suggestion>): seq<Suggestion> {
    if xs == [] then [] else InsertRanked(Ranked(xs[..|xs| - 1]), xs[|xs| - 1])
  }

  function Suggestions(sc: Scorer, name: string, entries: seq<TermEntry>): seq<Suggestion> {
    Ranked(Scored(sc, Casefold(name), entries))
  }

  method Suggest(sc: Scorer, columnName: string, entries: seq<TermEntry>) returns (out: seq<Suggestion>)
    ensures out == Suggestions(sc, columnName, entries)
  {
    var name := Casefold(columnName);
    out := [];
    for i := 0 to |entries|
      invariant out == Scored(sc, name, entries[..i])
    {
      var terms := entries[i].terms;
      var best := 0.0;
      for j := 0 to |terms|
        invariant best == Best(sc, name, terms[..j])
      {
        assert terms[..j + 1][..j] == terms[..j];
        var ratio := sc.ratio(name, Casefold(terms[j]));
        if j == 0 || ratio > best {
          best := ratio;
        }
      }
      assert terms[..|terms|] == terms;
      assert entries[..i + 1][..i] == entries[..i];
      if best > 0.0 {
        out := out + [Suggestion(entries[i].metricKey, sc.round(best))];
      }
    }
    assert entries[..|entries|] == entries;
    var sorted := [];
    for i := 0 to |out|
      invariant sorted == Ranked(out[..i])
    {
      assert out[..i + 1][..i] == out[..i];
      sorted := InsertRanked(sorted, out[i]);
    }
    assert out[..|out|] == out;
    out := sorted;
  }

  // ---- Ranking -----------------------------------------------------------------------------

  lemma OutranksOrder(a: Suggestion, b: Suggestion, c: Suggestion)
    ensures Outranks(a, b) || Outranks(b, a)
    ensures Outranks(a, b) && Outranks(b, a) ==> a == b
    ensures Outranks(a, b) && Outranks(b, c) ==> Outranks(a, c)
  {
    AtMostTotal(a.metricKey, b.metricKey);
    if AtMost(a.metricKey, b.metricKey) && AtMost(b.metricKey, c.metricKey) {
      AtMostTransitive(a.metricKey, b.metricKey, c.metricKey);
    }
  }

  lemma {:induction false} InsertRankedMembers(xs: seq<Suggestion>, s: Suggestion)
    ensures multiset(InsertRanked(xs, s)) == multiset(xs) + multiset{s}
    ensures forall x :: x in InsertRanked(xs, s) <==> x in xs || x == s
  {
    if xs != [] {
      assert xs == [xs[0]] + xs[1..];
      if Outranks(xs[0], s) { InsertRankedMembers(xs[1..], s); }
    }
  }

  lemma RankCons(x: Suggestion, rest: seq<Suggestion>)
    requires InRankOrder(rest) && forall y :: y in rest ==> Outranks(x, y)
    ensures InRankOrder([x] + rest)
  {
    var all := [x] + rest;
    forall i, j | 0 <= i < j < |all| ensures Outranks(all[i], all[j]) {
      assert all[j] == rest[j - 1] && rest[j - 1] in rest;
      if i > 0 { assert all[i] == rest[i - 1]; }
    }
  }

  lemma {:induction false} InsertRankedOrder(xs: seq<Suggestion>, s: Suggestion)
    requires InRankOrder(xs)
    ensures InRankOrder(InsertRanked(xs, s))
    ensures multiset(InsertRanked(xs, s)) == multiset(xs) + multiset{s}
  {
    InsertRankedMembers(xs, s);
    if xs != [] {
      if Outranks(xs[0], s) {
        InsertRankedOrder(xs[1..], s);
        InsertRankedMembers(xs[1..], s);
        forall y | y in xs[1..] ensures Outranks(xs[0], y) {
          var j :| 1 <= j < |xs| && xs[j] == y;
        }
        RankCons(xs[0], InsertRanked(xs[1..], s));
      } else {
        forall y | y in xs ensures Outranks(s, y) {
          OutranksOrder(xs[0], s, y);
          OutranksOrder(s, xs[0], y);
        }
        RankCons(s, xs);
      }
    }
  }

  lemma {:induction false} RankedOrder(xs: seq<Suggestion>)
    ensures InRankOrder(Ranked(xs)) && multiset(Ranked(xs)) == multiset(xs)
  {
    if xs != [] {
      RankedOrder(xs[..|xs| - 1]);
      InsertRankedOrder(Ranked(xs[..|xs| - 1]), xs[|xs| - 1]);
      assert xs == xs[..|xs| - 1] + [xs[|xs| - 1]];
    }
  }

  lemma SameHead(xs: seq<Suggestion>, ys: seq<Suggestion>)
    requires InRankOrder(xs) && InRankOrder(ys) && xs != [] && ys != []
    requires xs[0] in ys && ys[0] in xs
    ensures xs[0] == ys[0]
  {
    OutranksOrder(xs[0], ys[0], xs[0]);
  }

  lemma SameTails(xs: seq<Suggestion>, ys: seq<Suggestion>)
    requires multiset(xs) == multiset(ys) && xs != [] && ys != [] && xs[0] == ys[0]
    ensures multiset(xs[1..]) == multiset(ys[1..])
  {
    assert xs == [xs[0]] + xs[1..] && ys == [ys[0]] + ys[1..];
    assert multiset(xs[1..]) == multiset(xs) - multiset{xs[0]};
  }

  lemma {:induction false} RankOrderUnique(xs: seq<Suggestion>, ys: seq<Suggestion>)
    requires InRankOrder(xs) && InRankOrder(ys) && multiset(xs) == multiset(ys)
    ensures xs == ys
  {
    assert |xs| == |multiset(xs)| == |multiset(ys)| == |ys|;
    if xs != [] {
      assert xs[0] in ys && ys[0] in xs by {
        assert xs[0] in multiset(ys) && ys[0] in multiset(xs);
      }
      SameHead(xs, ys);
      SameTails(xs, ys);
      RankOrderUnique(xs[1..], ys[1..]);
      assert xs == [xs[0]] + xs[1..] && ys == [ys[0]] + ys[1..];
    }
  }

  lemma {:induction false} ScoredConcat(sc: Scorer, name: string, xs: seq<TermEntry>, ys: seq<TermEntry>)
    ensures Scored(sc, name, xs + ys) == Scored(sc, name, xs) + Scored(sc, name, ys)
  {
    if ys == [] {
      assert xs + ys == xs;
    } else {
      var all := xs + ys;
      assert all[..|all| - 1] == xs + ys[..|ys| - 1];
      ScoredConcat(sc, name, xs, ys[..|ys| - 1]);
    }
  }

  lemma ScoredInsert(sc: Scorer, name: string, before: seq<TermEntry>, e: TermEntry, after: seq<TermEntry>)
    ensures multiset(Scored(sc, name, before + [e] + after))
         == multiset(Scored(sc, name, before + after)) + multiset(Scored(sc, name, [e]))
  {
    ScoredConcat(sc, name, before, after);
    ScoredConcat(sc, name, before + [e], after);
    ScoredConcat(sc, name, before, [e]);
  }

  lemma SplitAt(ys: seq<TermEntry>, e: TermEntry) returns (before: seq<TermEntry>, after: seq<TermEntry>)
    requires e in multiset(ys)
    ensures ys == before + [e] + after && multiset(before + after) == multiset(ys) - multiset{e}
  {
    var i :| 0 <= i < |ys| && ys[i] == e;
    before, after := ys[..i], ys[i + 1..];
    assert ys == before + [e] + after;
  }

  /** The scores of a table, as a multiset, do not depend on its order. */
  lemma {:induction false} ScoredPermuted(sc: Scorer, name: string, xs: seq<TermEntry>, ys: seq<TermEntry>)
    requires multiset(xs) == multiset(ys)
    ensures multiset(Scored(sc, name, xs)) == multiset(Scored(sc, name, ys))
  {
    if xs == [] {
      assert |multiset(ys)| == 0;
    } else {
      var init, e := xs[..|xs| - 1], xs[|xs| - 1];
      assert xs == init + [e] + [] && init == init + [];
      assert e in multiset(xs) && multiset(init) == multiset(xs) - multiset{e};
      var before, after := SplitAt(ys, e);
      ScoredPermuted(sc, name, init, before + after);
      ScoredInsert(sc, name, init, e, []);
      ScoredInsert(sc, name, before, e, after);
    }
  }

  /** The outcome does not depend on the order in which the metrics are visited. */
  lemma RankingIgnoresOrder(sc: Scorer, name: string, xs: seq<TermEntry>, ys: seq<TermEntry>)
    requires multiset(xs) == multiset(ys)
    ensures Suggestions(sc, name, xs) == Suggestions(sc, name, ys)
  {
    ScoredPermuted(sc, Casefold(name), xs, ys);
    SortIgnoresOrder(Scored(sc, Casefold(name), xs), Scored(sc, Casefold(name), ys));
  }

  lemma SortIgnoresOrder(xs: seq<Suggestion>, ys: seq<Suggestion>)
    requires multiset(xs) == multiset(ys)
    ensures Ranked(xs) == Ranked(ys)
  {
    RankedOrder(xs);
    RankedOrder(ys);
    RankOrderUnique(Ranked(xs), Ranked(ys));
  }

  predicate DistinctEntries(entries: seq<TermEntry>) {
    forall i, j :: 0 <= i < j < |entries| ==> entries[i].metricKey != entries[j].metricKey
  }

  predicate DistinctMetrics(xs: seq<Suggestion>) {
    forall i, j :: 0 <= i < j < |xs| ==> xs[i].metricKey != xs[j].metricKey
  }

  lemma {:induction false} ScoredMembers(sc: Scorer, name: string, entries: seq<TermEntry>, s: Suggestion)
    ensures s in Scored(sc, name, entries) <==>
            exists e :: e in entries && e.metricKey == s.metricKey && Best(sc, name, e.terms) > 0.0
                     && s.score == sc.round(Best(sc, name, e.terms))
  {
    if entries != [] {
      var init, e := entries[..|entries| - 1], entries[|entries| - 1];
      ScoredMembers(sc, name, init, s);
      assert entries == init + [e];
      if s == Suggestion(e.metricKey, sc.round(Best(sc, name, e.terms))) { assert e in entries; }
    }
  }

  lemma {:induction false} ScoredDistinct(sc: Scorer, name: string, entries: seq<TermEntry>)
    requires DistinctEntries(entries)
    ensures DistinctMetrics(Scored(sc, name, entries))
  {
    if entries != [] {
      var init, e := entries[..|entries| - 1], entries[|entries| - 1];
      ScoredDistinct(sc, name, init);
      forall s | s in Scored(sc, name, init) ensures s.metricKey != e.metricKey {
        ScoredMembers(sc, name, init, s);
      }
    }
  }

  /** Sorting keeps metrics distinct: a repeated metric in the sorted list would be two
      members of the unsorted one. */
  lemma {:induction false} InsertRankedDistinct(xs: seq<Suggestion>, s: Suggestion)
    requires DistinctMetrics(xs) && forall x :: x in xs ==> x.metricKey != s.metricKey
    ensures DistinctMetrics(InsertRanked(xs, s))
    ensures forall x :: x in InsertRanked(xs, s) <==> x in xs || x == s
  {
    if xs != [] {
      assert xs == [xs[0]] + xs[1..];
      if Outranks(xs[0], s) {
        InsertRankedDistinct(xs[1..], s);
        forall x | x in InsertRanked(xs[1..], s) ensures x.metricKey != xs[0].metricKey {
          if x in xs[1..] { var i :| 0 < i < |xs| && xs[i] == x; }
        }
      }
    }
  }

  lemma {:induction false} RankedDistinct(xs: seq<Suggestion>)
    requires DistinctMetrics(xs)
    ensures DistinctMetrics(Ranked(xs))
    ensures forall x :: x in Ranked(xs) <==> x in xs
  {
    if xs != [] {
      var init := xs[..|xs| - 1];
      RankedDistinct(init);
      InsertRankedDistinct(Ranked(init), xs[|xs| - 1]);
      assert xs == init + [xs[|xs| - 1]];
    }
  }

  /** The suggestions are the positively scored metrics, each once, in rank order. */
  lemma SuggestionsAreRanking(sc: Scorer, name: string, entries: seq<TermEntry>)
    requires DistinctEntries(entries)
    ensures var out := Suggestions(sc, name, entries);
            && InRankOrder(out)
            && DistinctMetrics(out)
            && forall s :: s in out <==>
                 exists e :: e in entries && e.metricKey == s.metricKey && Best(sc, Casefold(name), e.terms) > 0.0
                          && s.score == sc.round(Best(sc, Casefold(name), e.terms))
  {
    var scored := Scored(sc, Casefold(name), entries);
    RankedOrder(scored);
    ScoredDistinct(sc, Casefold(name), entries);
    RankedDistinct(scored);
    forall s ensures s in scored <==>
      exists e :: e in entries && e.metricKey == s.metricKey && Best(sc, Casefold(name), e.terms) > 0.0
               && s.score == sc.round(Best(sc, Casefold(name), e.terms))
    {
      ScoredMembers(sc, Casefold(name), entries, s);
    }
  }

  // ---- Best scores ---------------------------------------------------------------------------

  lemma {:induction false} BestIsMax(sc: Scorer, name: string, terms: seq<string>)
    requires sc.Valid()
    ensures forall t :: t in terms ==> sc.ratio(name, Casefold(t)) <= Best(sc, name, terms)
    ensures terms == [] ==> Best(sc, name, terms) == 0.0
    ensures terms != [] ==> exists t :: t in terms && sc.ratio(name, Casefold(t)) == Best(sc, name, terms)
    ensures 0.0 <= Best(sc, name, terms) <= 1.0
  {
    if |terms| > 1 {
      BestIsMax(sc, name, terms[..|terms| - 1]);
      assert terms == terms[..|terms| - 1] + [terms[|terms| - 1]];
      if t :| t in terms[..|terms| - 1] && sc.ratio(name, Casefold(t)) == Best(sc, name, terms[..|terms| - 1]) {
        assert t in terms;
      }
    }
    if terms != [] { assert terms[|terms| - 1] in terms; }
  }

  lemma BestMonotone(sc: Scorer, name: string, few: seq<string>, many: seq<string>)
    requires sc.Valid() && forall t :: t in few ==> t in many
    ensures Best(sc, name, few) <= Best(sc, name, many)
  {
    BestIsMax(sc, name, few);
    BestIsMax(sc, name, many);
  }
}
