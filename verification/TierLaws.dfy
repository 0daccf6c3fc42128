/** What runs do to the tiers of a column: no column ever falls back, and what exactly a
    confirmation moves into tier 2. */
module TierLaws {
  import opened PyStrings
  import opened Graphs
  import opened GraphLaws
  import opened Stores
  import opened Client
  import opened AliasLaws
  import opened Ir
  import opened Suggesters
  import opened Resolvers
  import opened FunnelLaws
  import opened Pipeline
  import opened LoadLaws
  import opened WriteBack

  // ---- Scores that reach the threshold -----------------------------------------------------

  /** A score is suggested on when it is positive and, rounded, reaches the threshold. */
  predicate Clears(f: Funnel, score: real) { score > 0.0 && f.scorer.round(score) >= f.threshold }

  /** Some metric of the graph scores high enough for the name. */
  ghost predicate Reached(f: Funnel, g: Graph, name: string) {
    exists v :: v in MetricView(g) && Clears(f, Best(f.scorer, name, TermsOf(v)))
  }

  lemma ReachedIsSuggestible(f: Funnel, g: Graph, name: string)
    requires Keyed(g)
    ensures SomeReaches(f, g, name) <==> Reached(f, g, Casefold(name))
  {
    if s :| Candidate(f, g, name, s) && s.score >= f.threshold {
      var e :| e in TermsByMetric(g) && e.metricKey == s.metricKey
            && Best(f.scorer, Casefold(name), e.terms) > 0.0
            && s.score == f.scorer.round(Best(f.scorer, Casefold(name), e.terms));
      EntriesAreMetrics(g, e);
    }
    if v :| v in MetricView(g) && Clears(f, Best(f.scorer, Casefold(name), TermsOf(v))) {
      var e := TermEntry(MetricKeyOf(v), TermsOf(v));
      EntriesAreMetrics(g, e);
      var s := Suggestion(e.metricKey, f.scorer.round(Best(f.scorer, Casefold(name), e.terms)));
      assert Candidate(f, g, name, s);
    }
  }

  /** The tier of an undocumented column, by its folded name. */
  lemma TierByName(f: Funnel, g: Graph, c: ObservedColumn)
    requires Keyed(g) && f.topK >= 1 && !c.hasDictionary
    ensures var t, name := Decide(f, g, c).tier, Casefold(c.name);
            && (t == AutoLinked <==> name in Index(g))
            && (t == Suggested <==> name !in Index(g) && Reached(f, g, name))
            && (t == Escalated <==> name !in Index(g) && !Reached(f, g, name))
  {
    if Casefold(c.name) !in Index(g) {
      SuggestedExactly(f, g, c);
      ReachedIsSuggestible(f, g, c.name);
    }
  }

  lemma ClearsUp(f: Funnel, x: real, y: real)
    requires f.scorer.Valid() && x <= y && Clears(f, x)
    ensures Clears(f, y)
  {
  }

  /** The best score clears exactly when that of some term does. */
  lemma BestClears(f: Funnel, name: string, terms: seq<string>)
    requires f.scorer.Valid()
    ensures Clears(f, Best(f.scorer, name, terms)) <==>
            exists t :: t in terms && Clears(f, f.scorer.ratio(name, Casefold(t)))
  {
    BestIsMax(f.scorer, name, terms);
    if t :| t in terms && Clears(f, f.scorer.ratio(name, Casefold(t))) {
      ClearsUp(f, f.scorer.ratio(name, Casefold(t)), Best(f.scorer, name, terms));
    }
  }

  // ---- What teaching adds ------------------------------------------------------------------

  function LocalTerm(metricKey: string): string { Casefold(LastPart(metricKey, '.')) }

  /** The terms of a taught metric: those it had, if it was stored, or else the local part of
      its key, and the taught name. */
  lemma TaughtTerms(g: Graph, metricKey: string, name: string, t: string)
    requires Keyed(g) && Casefold(name) == name
    ensures var n := Metric(metricKey);
            t in TermsOf(NodeView(n, TaughtCell(g, metricKey, name))) <==>
              || t == name
              || (if Present(g, NodeRef(n)) then t in TermsOf(NodeView(n, At(g, NodeRef(n))))
                 else t == LocalTerm(metricKey))
  {
    var n := Metric(metricKey);
    var was, taught := NodeView(n, At(g, NodeRef(n))), NodeView(n, TaughtCell(g, metricKey, name));
    TaughtLists(g, metricKey, name, t);
    TermsOfMembers(was, t);
    TermsOfMembers(taught, t);
    StoredKeyKeyed(g, metricKey);
  }

  /** What a lesson newly offers a name: the taught name and, from a new metric, the local part
      of its key. */
  predicate Offered(f: Funnel, g: Graph, metricKey: string, taught: string, name: string) {
    || Clears(f, f.scorer.ratio(name, taught))
    || (!Present(g, NodeRef(Metric(metricKey))) && Clears(f, f.scorer.ratio(name, LocalTerm(metricKey))))
  }

  lemma TaughtClears(f: Funnel, g: Graph, metricKey: string, taught: string, name: string)
    requires f.scorer.Valid() && Keyed(g) && Casefold(taught) == taught
    ensures var n := Metric(metricKey);
            Clears(f, Best(f.scorer, name, TermsOf(NodeView(n, TaughtCell(g, metricKey, taught))))) <==>
              || Offered(f, g, metricKey, taught, name)
              || (Present(g, NodeRef(n)) && Clears(f, Best(f.scorer, name, TermsOf(NodeView(n, At(g, NodeRef(n)))))))
  {
    var n := Metric(metricKey);
    var before := TermsOf(NodeView(n, At(g, NodeRef(n))));
    var after := TermsOf(NodeView(n, TaughtCell(g, metricKey, taught)));
    BestClears(f, name, before);
    BestClears(f, name, after);
    CasefoldIdempotent(LastPart(metricKey, '.'));
    forall t ensures t in after <==>
      t == taught || (if Present(g, NodeRef(n)) then t in before else t == LocalTerm(metricKey))
    {
      TaughtTerms(g, metricKey, taught, t);
    }
    if Offered(f, g, metricKey, taught, name) {
      assert taught in after;
      assert !Present(g, NodeRef(n)) ==> LocalTerm(metricKey) in after;
    }
  }

  /** Reached after a lesson, exactly: reached before, or newly offered. */
  lemma LearnReaches(f: Funnel, g: Graph, metricKey: string, taught: string, name: string)
    requires f.scorer.Valid() && Keyed(g) && Casefold(taught) == taught
    ensures Reached(f, LearnAlias(g, metricKey, taught), name) <==>
            Reached(f, g, name) || Offered(f, g, metricKey, taught, name)
  {
    var n, view, view' := Metric(metricKey), MetricView(g), MetricView(LearnAlias(g, metricKey, taught));
    var learned := NodeView(n, TaughtCell(g, metricKey, taught));
    TaughtView(g, metricKey, taught);
    TaughtClears(f, g, metricKey, taught, name);
    TaughtInView(g, metricKey, taught);
    if v :| v in view && Clears(f, Best(f.scorer, name, TermsOf(v))) {
      ViewCells(g, v);
      OthersInView(g, metricKey, taught, v);
    }
    if v :| v in view' && Clears(f, Best(f.scorer, name, TermsOf(v))) {
      OthersInView(g, metricKey, taught, v);
      if v == learned && Present(g, NodeRef(n)) { NodesByLabelMembers(g, "Metric", NodeView(n, At(g, NodeRef(n)))); }
    }
  }

  lemma TaughtInView(g: Graph, metricKey: string, alias: string)
    ensures NodeView(Metric(metricKey), TaughtCell(g, metricKey, alias)) in MetricView(LearnAlias(g, metricKey, alias))
  {
    var n := Metric(metricKey);
    FindAfter(g, LearnWrite(g, metricKey, alias), NodeRef(n));
    NodesByLabelMembers(LearnAlias(g, metricKey, alias), "Metric", NodeView(n, TaughtCell(g, metricKey, alias)));
  }

  /** Every other metric is listed as before. */
  lemma OthersInView(g: Graph, metricKey: string, alias: string, v: NodeView)
    ensures v.id != Metric(metricKey) ==> (v in MetricView(LearnAlias(g, metricKey, alias)) <==> v in MetricView(g))
    ensures v.id == Metric(metricKey) && v in MetricView(LearnAlias(g, metricKey, alias)) ==>
              v.cell == TaughtCell(g, metricKey, alias)
  {
    FindAfter(g, LearnWrite(g, metricKey, alias), NodeRef(v.id));
    NodesByLabelMembers(g, "Metric", v);
    NodesByLabelMembers(LearnAlias(g, metricKey, alias), "Metric", v);
  }

  // ---- Tiers after a confirmation ----------------------------------------------------------

  lemma LinkKeepsView(g: Graph, c: ObservedColumn, metricKey: string, prov: EdgeProvenance)
    ensures MetricView(LinkedTo(g, c, metricKey, prov)) == MetricView(g)
    ensures forall n :: Present(LinkedTo(g, c, metricKey, prov), NodeRef(n)) <==> Present(g, NodeRef(n))
  {
    assert LinkedTo(g, c, metricKey, prov).nodes == g.nodes;
  }

  /** The tiers of undocumented columns after a confirmation, exactly. A name joins tier 1 only
      by being confirmed; an escalated name joins tier 2 exactly when the confirmed name, or
      the local part of a new metric's key, is similar enough to it. */
  lemma ConfirmTiers(f: Funnel, g: Graph, c: ObservedColumn, metricKey: string, prov: EdgeProvenance,
                     other: ObservedColumn)
    requires f.scorer.Valid() && f.topK >= 1 && Keyed(g) && !other.hasDictionary
    ensures var t, t' := Decide(f, g, other).tier, Decide(f, Confirmed(g, c, metricKey, prov), other).tier;
            var confirmed, name := Casefold(c.name), Casefold(other.name);
            && (t' == AutoLinked <==> t == AutoLinked || name == confirmed)
            && (t' == Suggested <==>
                  name != confirmed
                  && (t == Suggested || (t == Escalated && Offered(f, g, metricKey, confirmed, name))))
            && (t' == Escalated <==>
                  name != confirmed && t == Escalated && !Offered(f, g, metricKey, confirmed, name))
  {
    var linked, g' := LinkedTo(g, c, metricKey, prov), Confirmed(g, c, metricKey, prov);
    ConfirmEffect(g, c, metricKey, prov);
    TierByName(f, g, other);
    TierByName(f, g', other);
    LinkKeepsIndex(g, c, metricKey, prov);
    LinkKeepsView(g, c, metricKey, prov);
    CasefoldIdempotent(c.name);
    LearnReaches(f, linked, metricKey, Casefold(c.name), Casefold(other.name));
    assert Casefold(other.name) in Index(g').Keys <==>
           Casefold(other.name) in Index(g).Keys || Casefold(other.name) == Casefold(c.name);
  }

  // ---- No column falls back ----------------------------------------------------------------

  function Rank(t: Tier): nat {
    match t
    case Escalated => 0
    case Suggested => 1
    case Documented => 2
    case AutoLinked => 3
  }

  /** A documented column is DOCUMENTED until its name is listed. */
  lemma DocumentedTier(f: Funnel, g: Graph, c: ObservedColumn)
    requires c.hasDictionary
    ensures Decide(f, g, c).tier == if Casefold(c.name) in Index(g) then AutoLinked else Documented
  {
  }

  lemma ConfirmNeverLowers(f: Funnel, g: Graph, col: ObservedColumn, k: string, prov: EdgeProvenance, c: ObservedColumn)
    requires f.scorer.Valid() && f.topK >= 1 && Keyed(g)
    ensures Rank(Decide(f, g, c).tier) <= Rank(Decide(f, Confirmed(g, col, k, prov), c).tier)
  {
    if c.hasDictionary {
      DocumentedTier(f, g, c);
      DocumentedTier(f, Confirmed(g, col, k, prov), c);
      assert Casefold(c.name) in Index(g) ==> Casefold(c.name) in Index(Confirmed(g, col, k, prov)) by {
        ConfirmEffect(g, col, k, prov);
        assert Index(g).Keys <= Index(Confirmed(g, col, k, prov)).Keys;
      }
    } else {
      TierByName(f, g, c);
      ConfirmTiers(f, g, col, k, prov, c);
      RankRises(Decide(f, g, c).tier, Decide(f, Confirmed(g, col, k, prov), c).tier);
    }
  }

  lemma RankRises(t: Tier, t': Tier)
    requires t != Documented && (t == AutoLinked ==> t' == AutoLinked)
    requires t == Suggested ==> t' == AutoLinked || t' == Suggested
    ensures Rank(t) <= Rank(t')
  {
  }

  lemma StepNeverLowers(allow: Allow, f: Funnel, g: Graph, a: Action, c: ObservedColumn)
    requires f.scorer.Valid() && f.topK >= 1 && Keyed(g)
    ensures Rank(Decide(f, g, c).tier) <= Rank(Decide(f, Do(allow, g, a), c).tier)
  {
    match a
    case Resolve(_) =>
    case Confirm(col, k, prov) =>
      ConfirmNeverLowers(f, g, col, k, prov, c);
    case Load(b) =>
      LoadKeepsMetrics(allow, g, b);
      SameDecision(f, g, Loaded(allow, g, b), c);
  }

  /** Over any run of resolving, confirming and loading no column falls to a lower tier: what
      is suggested is never escalated again, and what is auto-linked stays so. */
  lemma {:induction false} TiersNeverFall(allow: Allow, f: Funnel, g: Graph, run: seq<Action>, c: ObservedColumn)
    requires f.scorer.Valid() && f.topK >= 1 && Keyed(g)
    ensures Rank(Decide(f, g, c).tier) <= Rank(Decide(f, DoAll(allow, g, run), c).tier)
  {
    if run != [] {
      var init := run[..|run| - 1];
      TiersNeverFall(allow, f, g, init, c);
      TierOneOverRuns(allow, g, init);
      StepNeverLowers(allow, f, DoAll(allow, g, init), run[|run| - 1], c);
    }
  }

  // ---- Tier-2 volume -----------------------------------------------------------------------

  /** The names of a folded vocabulary that undocumented columns would be SUGGESTED under. */
  ghost function TierTwo(f: Funnel, g: Graph, names: set<string>): set<string> {
    set n | n in names && n !in Index(g) && Reached(f, g, n)
  }

  /** The names a confirmation moves up from tier 3. */
  ghost function Promoted(f: Funnel, g: Graph, metricKey: string, confirmed: string, names: set<string>): set<string> {
    set n | n in names && n != confirmed && n !in Index(g) && !Reached(f, g, n)
      && Offered(f, g, metricKey, confirmed, n)
  }

  /** Tier-2 volume after a confirmation, exactly: it loses the confirmed name, if it was there,
      and gains the promoted ones. So it grows exactly when more names are promoted than leave. */
  lemma TierTwoAfterConfirm(f: Funnel, g: Graph, c: ObservedColumn, metricKey: string, prov: EdgeProvenance,
                            names: set<string>)
    requires f.scorer.Valid() && Keyed(g)
    ensures var before, after := TierTwo(f, g, names), TierTwo(f, Confirmed(g, c, metricKey, prov), names);
            var promoted := Promoted(f, g, metricKey, Casefold(c.name), names);
            && after == before - {Casefold(c.name)} + promoted
            && |after| == |before| - (if Casefold(c.name) in before then 1 else 0) + |promoted|
  {
    var name, before := Casefold(c.name), TierTwo(f, g, names);
    var promoted := Promoted(f, g, metricKey, name, names);
    var after := TierTwo(f, Confirmed(g, c, metricKey, prov), names);
    forall n
      ensures n in after <==> (n in before && n != name) || n in promoted
      ensures !(n in before && n in promoted)
    {
      TierTwoMember(f, g, c, metricKey, prov, names, n);
    }
    Swapped(before, name, promoted, after);
  }

  lemma TierTwoMember(f: Funnel, g: Graph, c: ObservedColumn, metricKey: string, prov: EdgeProvenance,
                      names: set<string>, n: string)
    requires f.scorer.Valid() && Keyed(g)
    ensures n in TierTwo(f, Confirmed(g, c, metricKey, prov), names) <==>
            (n in TierTwo(f, g, names) && n != Casefold(c.name))
              || n in Promoted(f, g, metricKey, Casefold(c.name), names)
    ensures !(n in TierTwo(f, g, names) && n in Promoted(f, g, metricKey, Casefold(c.name), names))
  {
    var g' := Confirmed(g, c, metricKey, prov);
    ConfirmReaches(f, g, c, metricKey, prov, n);
    assert n in Index(g') <==> n in Index(g) || n == Casefold(c.name) by {
      ConfirmEffect(g, c, metricKey, prov);
      assert n in Index(g').Keys <==> n in Index(g).Keys + {Casefold(c.name)};
    }
  }

  lemma ConfirmReaches(f: Funnel, g: Graph, c: ObservedColumn, metricKey: string, prov: EdgeProvenance, n: string)
    requires f.scorer.Valid() && Keyed(g)
    ensures Reached(f, Confirmed(g, c, metricKey, prov), n) <==>
            Reached(f, g, n) || Offered(f, g, metricKey, Casefold(c.name), n)
  {
    LinkKeepsIndex(g, c, metricKey, prov);
    LinkKeepsView(g, c, metricKey, prov);
    CasefoldIdempotent(c.name);
    LearnReaches(f, LinkedTo(g, c, metricKey, prov), metricKey, Casefold(c.name), n);
  }

  lemma Swapped<T>(before: set<T>, name: T, promoted: set<T>, after: set<T>)
    requires forall n :: n in after <==> (n in before && n != name) || n in promoted
    requires forall n :: !(n in before && n in promoted)
    ensures after == before - {name} + promoted
    ensures |after| == |before| - (if name in before then 1 else 0) + |promoted|
  {
    assert after == before - {name} + promoted && (before - {name}) !! promoted;
    if name in before { assert before == before - {name} + {name}; } else { assert before - {name} == before; }
  }

  /** Tier-2 volume can rise: with nothing known, two columns with similar names are escalated;
      confirming one of them makes the other a suggestion. */
  lemma TierTwoCanRise(f: Funnel, a: ObservedColumn, b: ObservedColumn, prov: EdgeProvenance)
    requires f.scorer.Valid() && f.topK >= 1 && Clears(f, f.scorer.ratio("weight_kgs", "weight_kg"))
    requires a.name == "weight_kg" && b.name == "weight_kgs" && !a.hasDictionary && !b.hasDictionary
    ensures Decide(f, Empty, a).tier == Escalated && Decide(f, Empty, b).tier == Escalated
    ensures var g := Confirmed(Empty, a, "w.mass", prov);
            Decide(f, g, a).tier == AutoLinked && Decide(f, g, b).tier == Suggested
  {
    assert Casefold("weight_kg") == "weight_kg" && Casefold("weight_kgs") == "weight_kgs";
    assert |"weight_kg"| != |"weight_kgs"|;
    forall n ensures !Reached(f, Empty, n) && n !in Index(Empty) {}
    TierByName(f, Empty, a);
    TierByName(f, Empty, b);
    ConfirmTiers(f, Empty, a, "w.mass", prov, a);
    ConfirmTiers(f, Empty, a, "w.mass", prov, b);
  }

  // ---- The escalation queue ----------------------------------------------------------------

  predicate Listed(g: Graph, c: ObservedColumn) {
    exists i :: 0 <= i < |MetricView(g)| && Lists(MetricView(g)[i], Casefold(c.name))
  }

  /** A column is escalated exactly when no metric lists its name, it has no dictionary, and
      nothing is similar enough. */
  lemma EscalatedExactly(f: Funnel, g: Graph, c: ObservedColumn)
    requires f.topK >= 1
    ensures Decide(f, g, c).tier == Escalated <==> !Listed(g, c) && !c.hasDictionary && !SomeReaches(f, g, c.name)
  {
    TiersExactly(f, g, c);
    if Casefold(c.name) !in Index(g) && !c.hasDictionary { SuggestedExactly(f, g, c); }
  }

  lemma {:induction false} NothingEscalated(f: Funnel, g: Graph, columns: seq<ObservedColumn>)
    ensures EscalatedOf(Decisions(f, g, columns)) == [] <==>
            forall c :: c in columns ==> Decide(f, g, c).tier != Escalated
  {
    if columns != [] {
      var init, c := columns[..|columns| - 1], columns[|columns| - 1];
      assert columns == init + [c];
      NothingEscalated(f, g, init);
      EscalatedStep(Decisions(f, g, init), Decide(f, g, c));
    }
  }

  /** A second load appends to the queue what the first did, and leaves it alone exactly when a
      rejected relation ends it, or every column is listed by some metric, has a dictionary, or
      has a candidate that reaches the threshold. */
  lemma SecondLoadQueue(allow: Allow, f: Funnel, g: Graph, b: ParsedBundle)
    requires f.topK >= 1
    ensures var again := Appended(allow, f, Loaded(allow, g, b), b);
            && again == Appended(allow, f, g, b)
            && (again == [] <==>
                  || !Admitted(allow, b)
                  || forall c :: c in b.IterColumns() ==> Listed(g, c) || c.hasDictionary || SomeReaches(f, g, c.name))
  {
    LoadTwice(allow, g, b);
    NothingEscalated(f, g, b.IterColumns());
    forall c { EscalatedExactly(f, g, c); }
  }

  /** One input: a bundle with one unknown column and no relations, and no metrics at all. */
  lemma UnknownColumnQueuedAgain(allow: Allow, f: Funnel, b: ParsedBundle, c: ObservedColumn)
    requires f.topK >= 1 && b.columns == [c] && b.entities == [] && b.relations == [] && !c.hasDictionary
    ensures Appended(allow, f, Loaded(allow, Empty, b), b) == [Decide(f, Empty, c)]
  {
    LoadTwice(allow, Empty, b);
    assert b.IterColumns() == [c];
    assert [c][..0] == [];
    EscalatedExactly(f, Empty, c);
    RankedCandidates(f, Empty, c.name);
    EscalatedStep(Decisions(f, Empty, []), Decide(f, Empty, c));
  }
}
