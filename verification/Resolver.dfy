/** The resolver funnel: exact alias, shipped dictionary, ranked suggestion, escalation. */
module Resolvers {
  import opened Wrappers
  import opened PyStrings
  import opened Graphs
  import opened Client
  import opened Ir
  import opened Suggesters

  datatype Tier = AutoLinked | Suggested | Escalated | Documented

  datatype Resolution = Resolution(
    column: ObservedColumn, tier: Tier, metricKey: Option<string>, score: real,
    alternatives: seq<Suggestion>)

  datatype Funnel = Funnel(scorer: Scorer, threshold: real, topK: int)

  /** `xs[:k]` */
  function FirstK<T>(xs: seq<T>, k: int): seq<T> {
    if k >= 0 then (if k <= |xs| then xs[..k] else xs)
    else if |xs| + k >= 0 then xs[..|xs| + k] else []
  }

  function Shortlist(f: Funnel, g: Graph, name: string): seq<Suggestion> {
    FirstK(Suggestions(f.scorer, name, TermsByMetric(g)), f.topK)
  }

  /** The outcome for one column against the current graph. */
  function Decide(f: Funnel, g: Graph, column: ObservedColumn): Resolution {
    var name := Casefold(column.name);
    if name in Index(g) then Resolution(column, AutoLinked, Some(Index(g)[name]), 1.0, [])
    else if column.hasDictionary then Resolution(column, Documented, None, 0.0, [])
    else
      var list := Shortlist(f, g, column.name);
      if list != [] && list[0].score >= f.threshold
      then Resolution(column, Suggested, Some(list[0].metricKey), list[0].score, list)
      else Resolution(column, Escalated, None, 0.0, list)
  }

  function LinkedTo(g: Graph, column: ObservedColumn, metricKey: string, prov: EdgeProvenance): Graph {
    Apply(g, EdgeWrite(Measures(column.system, column.table, column.name, metricKey), prov))
  }

  function Confirmed(g: Graph, column: ObservedColumn, metricKey: string, prov: EdgeProvenance): Graph {
    LearnAlias(LinkedTo(g, column, metricKey, prov), metricKey, Casefold(column.name))
  }

  class EscalationQueue {
    var items: seq<Resolution>

    constructor ()
      ensures items == []
    {
      items := [];
    }

    method Enqueue(r: Resolution)
      modifies this
      ensures items == old(items) + [r]
    {
      items := items + [r];
    }
  }

  class Resolver {
    const client: GraphClient
    const funnel: Funnel
    const queue: EscalationQueue

    /** A queue passed in while still empty counts as absent and is replaced. */
    constructor (client: GraphClient, funnel: Funnel, queue: EscalationQueue?)
      ensures this.client == client && this.funnel == funnel
      ensures queue != null && queue.items != [] ==> this.queue == queue
      ensures queue == null || queue.items == [] ==> fresh(this.queue) && this.queue.items == []
    {
      this.client := client;
      this.funnel := funnel;
      if queue != null && queue.items != [] {
        this.queue := queue;
      } else {
        this.queue := new EscalationQueue();
      }
    }

    method Resolve(column: ObservedColumn) returns (r: Resolution)
      modifies queue
      ensures r == Decide(funnel, client.Contents(), column)
      ensures queue.items == old(queue.items) + if r.tier == Escalated then [r] else []
    {
      var index := client.MetricAliases();
      var name := Casefold(column.name);
      if name in index {
        return Resolution(column, AutoLinked, Some(index[name]), 1.0, []);
      }
      if column.hasDictionary {
        return Resolution(column, Documented, None, 0.0, []);
      }
      var terms := client.MetricTerms();
      var suggestions := Suggest(funnel.scorer, column.name, terms);
      suggestions := FirstK(suggestions, funnel.topK);
      if suggestions != [] && suggestions[0].score >= funnel.threshold {
        var top := suggestions[0];
        return Resolution(column, Suggested, Some(top.metricKey), top.score, suggestions);
      }
      r := Resolution(column, Escalated, None, 0.0, suggestions);
      queue.Enqueue(r);
    }

    method Confirm(column: ObservedColumn, metricKey: string, prov: EdgeProvenance)
      modifies client.store
      ensures client.Contents() == Confirmed(old(client.Contents()), column, metricKey, prov)
      ensures client.store.log == old(client.store.log)
                + [EdgeWrite(Measures(column.system, column.table, column.name, metricKey), prov)]
                + [LearnWrite(LinkedTo(old(client.Contents()), column, metricKey, prov), metricKey,
                              Casefold(column.name))]
    {
      ghost var e := Measures(column.system, column.table, column.name, metricKey);
      assert Effect(Link(e, prov)) == EdgeWrite(e, prov);
      client.LinkColumnToMetric(column.system, column.table, column.name, metricKey, prov);
      client.AddMetricAlias(metricKey, Casefold(column.name));
    }
  }
}

/** What the funnel promises about tier 2. */
module FunnelLaws {
  import opened Wrappers
  import opened PyStrings
  import opened Graphs
  import opened Stores
  import opened Client
  import opened WriteLaws
  import opened AliasLaws
  import opened Ir
  import opened Suggesters
  import opened Resolvers

  /** Which tier a column falls into, and what tier 1 answers: the last metric, in insertion
      order, that lists the column's case-folded name. A dictionary is asked only after
      tier 1 has missed. */
  lemma TiersExactly(f: Funnel, g: Graph, c: ObservedColumn)
    ensures var r, name, view := Decide(f, g, c), Casefold(c.name), MetricView(g);
            && (r.tier == AutoLinked <==> exists i :: 0 <= i < |view| && Lists(view[i], name))
            && (forall i :: LastLister(view, name, i) ==>
                  r == Resolution(c, AutoLinked, Some(MetricKeyOf(view[i])), 1.0, []))
            && (r.tier == Documented <==> c.hasDictionary && forall i :: 0 <= i < |view| ==> !Lists(view[i], name))
            && (r.tier == Documented ==> r == Resolution(c, Documented, None, 0.0, []))
  {
    IndexIsLastLister(MetricView(g), Casefold(c.name));
  }

  /** Every outcome is about the column it was asked for; its parts, tier by tier. */
  lemma OutcomeSpelled(f: Funnel, g: Graph, c: ObservedColumn)
    ensures var r := Decide(f, g, c);
            && r.column == c
            && (r.tier == AutoLinked ==> r.metricKey.Some? && r.score == 1.0 && r.alternatives == [])
            && (r.tier == Documented ==> r.metricKey.None? && r.score == 0.0 && r.alternatives == [])
            && (r.tier == Suggested ==>
                  r.alternatives != [] && r.metricKey == Some(r.alternatives[0].metricKey)
                    && r.score == r.alternatives[0].score >= f.threshold)
            && (r.tier == Escalated ==>
                  r.metricKey.None? && r.score == 0.0 && (r.alternatives != []
                    ==> r.alternatives[0].score < f.threshold))
  {
  }

  /** Names that differ in case alone meet the same fate at every tier. */
  lemma CaseBlind(f: Funnel, g: Graph, c: ObservedColumn, d: ObservedColumn)
    requires SameUpToCase(c.name, d.name) && c.hasDictionary == d.hasDictionary
    ensures var r, s := Decide(f, g, c), Decide(f, g, d);
            r.tier == s.tier && r.metricKey == s.metricKey && r.score == s.score && r.alternatives == s.alternatives
  {
    CasefoldExactly(c.name, d.name);
  }

  /** Some alias stored under the metric spells the name, in whatever case. */
  predicate Spells(g: Graph, k: string, name: string) {
    Metric(k) in g.nodes.cells && exists i :: 0 <= i < |ReadAliases(g, k)| && SameUpToCase(ReadAliases(g, k)[i], name)
  }

  lemma SpellsIsLists(g: Graph, k: string, name: string)
    requires Metric(k) in g.nodes.cells
    ensures Spells(g, k, name) <==> Lists(NodeView(Metric(k), g.nodes.cells[Metric(k)]), Casefold(name))
  {
    var aliases := ReadAliases(g, k);
    assert aliases == AliasesOf(g.nodes.cells[Metric(k)]);
    forall i | 0 <= i < |aliases| ensures SameUpToCase(aliases[i], name) <==> Casefold(aliases[i]) == Casefold(name) {
      CasefoldExactly(aliases[i], name);
    }
  }

  /** A column is auto-linked exactly when some stored metric has an alias that spells its name. */
  lemma TierOneSpelled(f: Funnel, g: Graph, c: ObservedColumn)
    ensures Decide(f, g, c).tier == AutoLinked <==> exists k :: Spells(g, k, c.name)
  {
    var view, name := MetricView(g), Casefold(c.name);
    TiersExactly(f, g, c);
    if i :| 0 <= i < |view| && Lists(view[i], name) {
      ViewCells(g, view[i]);
      SpellsIsLists(g, view[i].id.metricKey, c.name);
    }
    if k :| Spells(g, k, c.name) { var i := SpellerInView(g, k, c.name); }
  }

  lemma SpellerInView(g: Graph, k: string, name: string) returns (i: nat)
    requires Spells(g, k, name)
    ensures i < |MetricView(g)| && Lists(MetricView(g)[i], Casefold(name))
  {
    var v := NodeView(Metric(k), g.nodes.cells[Metric(k)]);
    SpellsIsLists(g, k, name);
    NodesByLabelMembers(g, "Metric", v);
    i :| 0 <= i < |MetricView(g)| && MetricView(g)[i] == v;
  }

  /** A metric with one alias links the columns it names. */
  lemma AliasLinks(f: Funnel, g: Graph, k: string, alias: string, c: ObservedColumn)
    requires Read(g, Metric(k), "aliases") == Some(Texts([alias])) && SameUpToCase(alias, c.name)
    ensures Decide(f, g, c).tier == AutoLinked
  {
    TierOneSpelled(f, g, c);
    assert ReadAliases(g, k)[0] == alias;
    assert Spells(g, k, c.name);
  }

  /** One such name: the column `Weight` and a metric that lists `weight`. */
  lemma CapitalNameLinks(f: Funnel, g: Graph, k: string, c: ObservedColumn)
    requires Read(g, Metric(k), "aliases") == Some(Texts(["weight"])) && c.name == "Weight"
    ensures Decide(f, g, c).tier == AutoLinked
  {
    AliasLinks(f, g, k, "weight", c);
  }

  lemma {:induction false} PutEntryMembers(entries: seq<TermEntry>, e: TermEntry)
    requires DistinctEntries(entries)
    ensures DistinctEntries(PutEntry(entries, e))
    ensures forall x :: x in PutEntry(entries, e) <==> x == e || (x in entries && x.metricKey != e.metricKey)
  {
    if entries != [] {
      var head, rest := entries[0], entries[1..];
      assert entries == [head] + rest;
      assert forall x :: x in rest ==> x.metricKey != head.metricKey;
      if head.metricKey == e.metricKey {
        assert PutEntry(entries, e) == [e] + rest;
      } else {
        PutEntryMembers(rest, e);
        assert forall x :: x in PutEntry(rest, e) ==> x.metricKey != head.metricKey;
        assert PutEntry(entries, e) == [head] + PutEntry(rest, e);
      }
    }
  }

  lemma {:induction false} PutEntryLast(entries: seq<TermEntry>, e: TermEntry)
    requires forall x :: x in entries ==> x.metricKey != e.metricKey
    ensures PutEntry(entries, e) == entries + [e]
  {
    if entries != [] {
      assert entries == [entries[0]] + entries[1..];
      PutEntryLast(entries[1..], e);
    }
  }

  lemma {:induction false} TermTableDistinct(view: seq<NodeView>)
    ensures DistinctEntries(TermTable(view))
  {
    if view != [] {
      var v := view[|view| - 1];
      TermTableDistinct(view[..|view| - 1]);
      PutEntryMembers(TermTable(view[..|view| - 1]), TermEntry(MetricKeyOf(v), TermsOf(v)));
    }
  }

  ghost predicate DistinctKeys(view: seq<NodeView>) {
    forall i, j :: 0 <= i < j < |view| ==> MetricKeyOf(view[i]) != MetricKeyOf(view[j])
  }

  function Entry(v: NodeView): TermEntry { TermEntry(MetricKeyOf(v), TermsOf(v)) }

  function Entries(view: seq<NodeView>): seq<TermEntry> {
    seq(|view|, i requires 0 <= i < |view| => Entry(view[i]))
  }

  /** Metrics with keys of their own are listed in insertion order. */
  lemma {:induction false} TermTableInOrder(view: seq<NodeView>)
    requires DistinctKeys(view)
    ensures TermTable(view) == Entries(view)
  {
    if view != [] {
      var init, last := view[..|view| - 1], Entry(view[|view| - 1]);
      DistinctFront(view);
      TermTableInOrder(init);
      assert PutEntry(Entries(init), last) == Entries(init) + [last] by {
        NewEntry(view);
        PutEntryLast(Entries(init), last);
      }
    }
  }

  lemma DistinctFront(view: seq<NodeView>)
    requires view != [] && DistinctKeys(view)
    ensures DistinctKeys(view[..|view| - 1])
  {
    var init := view[..|view| - 1];
    forall i, j | 0 <= i < j < |init| ensures MetricKeyOf(init[i]) != MetricKeyOf(init[j]) {
      assert MetricKeyOf(view[i]) != MetricKeyOf(view[j]);
    }
  }

  lemma NewEntry(view: seq<NodeView>)
    requires view != [] && DistinctKeys(view)
    ensures forall x :: x in Entries(view[..|view| - 1]) ==> x.metricKey != Entry(view[|view| - 1]).metricKey
  {
    var init := view[..|view| - 1];
    forall x | x in Entries(init) ensures x.metricKey != MetricKeyOf(view[|view| - 1]) {
      var i :| 0 <= i < |init| && Entries(init)[i] == x;
      assert MetricKeyOf(view[i]) == x.metricKey;
    }
  }

  predicate EntryOf(v: NodeView, e: TermEntry) { e == Entry(v) }

  predicate SomeEntry(view: seq<NodeView>, e: TermEntry) {
    exists i :: 0 <= i < |view| && EntryOf(view[i], e)
  }

  lemma SomeEntrySnoc(view: seq<NodeView>, e: TermEntry)
    requires view != []
    ensures SomeEntry(view, e) <==> SomeEntry(view[..|view| - 1], e) || EntryOf(view[|view| - 1], e)
  {
    var init := view[..|view| - 1];
    assert forall i :: 0 <= i < |init| ==> init[i] == view[i];
  }

  lemma EarlierKey(view: seq<NodeView>, e: TermEntry)
    requires view != [] && DistinctKeys(view) && SomeEntry(view[..|view| - 1], e)
    ensures e.metricKey != MetricKeyOf(view[|view| - 1])
  {
    var i :| 0 <= i < |view| - 1 && EntryOf(view[..|view| - 1][i], e);
    assert MetricKeyOf(view[i]) == e.metricKey;
  }

  lemma {:induction false} TermTableMembers(view: seq<NodeView>, e: TermEntry)
    requires DistinctKeys(view)
    ensures e in TermTable(view) <==> SomeEntry(view, e)
  {
    if view != [] {
      var n := |view| - 1;
      var init, last := view[..n], TermEntry(MetricKeyOf(view[n]), TermsOf(view[n]));
      DistinctFront(view);
      TermTableMembers(init, e);
      TermTableDistinct(init);
      assert TermTable(view) == PutEntry(TermTable(init), last);
      assert e in TermTable(view) <==> e == last || (e in TermTable(init) && e.metricKey != last.metricKey) by {
        PutEntryMembers(TermTable(init), last);
      }
      SomeEntrySnoc(view, e);
      if SomeEntry(init, e) { EarlierKey(view, e); }
    }
  }

  lemma KeyedViewDistinct(g: Graph)
    requires Keyed(g)
    ensures DistinctKeys(MetricView(g))
    ensures forall v :: v in MetricView(g) ==> v.id == Metric(MetricKeyOf(v))
  {
    var view := MetricView(g);
    DistinctIds(g, view);
    forall v | v in view ensures v.id == Metric(MetricKeyOf(v)) { ViewCells(g, v); }
  }

  /** A metric is suggestible when it scores above zero; its score is then the rounded best. */
  predicate Candidate(f: Funnel, g: Graph, name: string, s: Suggestion) {
    exists e :: e in TermsByMetric(g) && e.metricKey == s.metricKey
             && Best(f.scorer, Casefold(name), e.terms) > 0.0
             && s.score == f.scorer.round(Best(f.scorer, Casefold(name), e.terms))
  }

  /** Some candidate reaches the threshold. */
  ghost predicate SomeReaches(f: Funnel, g: Graph, name: string) {
    exists s :: Candidate(f, g, name, s) && s.score >= f.threshold
  }

  /** How many of `n` suggestions a slice `[:k]` keeps. */
  function Kept(k: int, n: nat): nat {
    if k >= 0 then (if k <= n then k else n) else if n + k >= 0 then n + k else 0
  }

  /** Ranking optimality. An undocumented column that misses tier 1 is SUGGESTED exactly when
      the slice keeps anything and some candidate reaches the threshold; it then names the best
      candidate, least key first on ties; the alternatives are distinct candidates in rank
      order, as many as the slice keeps, and no omitted candidate ranks above a kept one. */
  lemma SuggestedExactly(f: Funnel, g: Graph, column: ObservedColumn)
    requires Casefold(column.name) !in Index(g) && !column.hasDictionary
    ensures var r := Decide(f, g, column);
            && (r.tier == Suggested <==> r.alternatives != [] && SomeReaches(f, g, column.name))
            && (f.topK >= 1 ==> (r.tier == Suggested <==> SomeReaches(f, g, column.name)))
            && (r.tier != Suggested ==> r.tier == Escalated && r.metricKey == None)
            && (r.tier == Suggested ==>
                  && Candidate(f, g, column.name, Suggestion(r.metricKey.value, r.score))
                  && forall s :: Candidate(f, g, column.name, s) ==>
                       && Outranks(Suggestion(r.metricKey.value, r.score), s)
                       && s.score <= r.score && (s.score == r.score ==> AtMost(r.metricKey.value, s.metricKey)))
            && InRankOrder(r.alternatives) && DistinctMetrics(r.alternatives)
            && |r.alternatives| == Kept(f.topK, |Suggestions(f.scorer, column.name, TermsByMetric(g))|)
            && (f.topK >= 1 ==> |r.alternatives| <= f.topK)
            && (forall s :: s in r.alternatives ==> Candidate(f, g, column.name, s))
            && (forall s, kept :: Candidate(f, g, column.name, s) && s !in r.alternatives && kept in r.alternatives ==>
                  Outranks(kept, s))
  {
    var all := Suggestions(f.scorer, column.name, TermsByMetric(g));
    RankedCandidates(f, g, column.name);
    ShortlistKeepsBest(f, all);
    var list := Shortlist(f, g, column.name);
    assert list == FirstK(all, f.topK);
    if list != [] {
      assert Candidate(f, g, column.name, list[0]);
      if s :| Candidate(f, g, column.name, s) && s.score >= f.threshold {
        assert Outranks(list[0], s);
      }
    }
  }

  /** The suggestions are the candidates, the best one first. */
  lemma RankedCandidates(f: Funnel, g: Graph, name: string)
    ensures var all := Suggestions(f.scorer, name, TermsByMetric(g));
            && InRankOrder(all) && DistinctMetrics(all)
            && (forall s :: s in all <==> Candidate(f, g, name, s))
            && (all != [] ==> forall s :: Candidate(f, g, name, s) ==> Outranks(all[0], s))
  {
    var all := Suggestions(f.scorer, name, TermsByMetric(g));
    TermTableDistinct(MetricView(g));
    SuggestionsAreRanking(f.scorer, name, TermsByMetric(g));
    assert forall s :: s in all <==> Candidate(f, g, name, s);
    forall s | s in all ensures all != [] && Outranks(all[0], s) { OutranksOrder(s, s, s); }
  }

  lemma ShortlistKeepsBest(f: Funnel, all: seq<Suggestion>)
    requires InRankOrder(all) && DistinctMetrics(all)
    ensures var list := FirstK(all, f.topK);
            && InRankOrder(list) && DistinctMetrics(list) && |list| == Kept(f.topK, |all|)
            && (list != [] ==> all != [] && list[0] == all[0])
            && (forall s :: s in list ==> s in all)
            && (forall s, kept :: s in all && s !in list && kept in list ==> Outranks(kept, s))
  {
    var list := FirstK(all, f.topK);
    assert list == all[..|list|];
    assert forall k :: 0 <= k < |list| ==> all[k] in list;
    forall s, kept | s in all && s !in list && kept in list ensures Outranks(kept, s) {
      var i :| 0 <= i < |all| && all[i] == s;
      var j :| 0 <= j < |list| && list[j] == kept;
      assert all[j] == kept;
    }
  }

  // ---- Learning never hurts a score ---------------------------------------------------------

  lemma {:induction false} InsertTermMembers(terms: seq<string>, t: string)
    ensures forall x :: x in InsertTerm(terms, t) <==> x in terms || x == t
  {
    if terms != [] {
      assert terms == [terms[0]] + terms[1..];
      if t != terms[0] && !AtMost(t, terms[0]) { InsertTermMembers(terms[1..], t); }
    }
  }

  lemma {:induction false} FoldedTermsMembers(aliases: seq<string>, x: string)
    ensures x in FoldedTerms(aliases) <==> ListedIn(aliases, x)
  {
    if aliases != [] {
      var init, last := aliases[..|aliases| - 1], aliases[|aliases| - 1];
      FoldedTermsMembers(init, x);
      InsertTermMembers(FoldedTerms(init), Casefold(last));
      ListedAppend(init, last, x);
      assert aliases == init + [last];
    }
  }

  /** The terms of a metric are its case-folded aliases and the local part of its key. */
  lemma TermsOfMembers(v: NodeView, x: string)
    ensures x in TermsOf(v) <==> Lists(v, x) || x == Casefold(LastPart(MetricKeyOf(v), '.'))
  {
    FoldedTermsMembers(AliasesOf(v.cell), x);
    InsertTermMembers(FoldedTerms(AliasesOf(v.cell)), Casefold(LastPart(MetricKeyOf(v), '.')));
  }

  /** Terms are listed once each, in order. */
  predicate Ascending(terms: seq<string>) {
    forall i, j :: 0 <= i < j < |terms| ==> terms[i] != terms[j] && AtMost(terms[i], terms[j])
  }

  lemma AscendingCons(x: string, rest: seq<string>)
    requires Ascending(rest) && forall y :: y in rest ==> x != y && AtMost(x, y)
    ensures Ascending([x] + rest)
  {
    var all := [x] + rest;
    forall i, j | 0 <= i < j < |all| ensures all[i] != all[j] && AtMost(all[i], all[j]) {
      assert all[j] == rest[j - 1] && rest[j - 1] in rest;
      if i > 0 { assert all[i] == rest[i - 1]; }
    }
  }

  lemma {:induction false} InsertTermAscending(terms: seq<string>, t: string)
    requires Ascending(terms)
    ensures Ascending(InsertTerm(terms, t))
  {
    if terms == [] {
    } else if t != terms[0] && AtMost(t, terms[0]) {
      forall y | y in terms ensures t != y && AtMost(t, y) { BelowAll(terms, t, y); }
      AscendingCons(t, terms);
    } else if t != terms[0] {
      var rest := InsertTerm(terms[1..], t);
      InsertTermAscending(terms[1..], t);
      forall y | y in rest ensures terms[0] != y && AtMost(terms[0], y) {
        InsertTermMembers(terms[1..], t);
        AtMostTotal(t, terms[0]);
        if y != t { var j :| 1 <= j < |terms| && terms[j] == y; }
      }
      AscendingCons(terms[0], rest);
    }
  }

  lemma BelowAll(terms: seq<string>, t: string, x: string)
    requires Ascending(terms) && x in terms && t != terms[0] && AtMost(t, terms[0])
    ensures AtMost(t, x) && t != x
  {
    if x != terms[0] {
      AtMostTransitive(t, terms[0], x);
      AtMostTotal(t, terms[0]);
    }
  }

  lemma {:induction false} FoldedAscending(aliases: seq<string>)
    ensures Ascending(FoldedTerms(aliases))
  {
    if aliases != [] {
      FoldedAscending(aliases[..|aliases| - 1]);
      InsertTermAscending(FoldedTerms(aliases[..|aliases| - 1]), Casefold(aliases[|aliases| - 1]));
    }
  }

  lemma TermsAscending(v: NodeView)
    ensures Ascending(TermsOf(v))
  {
    FoldedAscending(AliasesOf(v.cell));
    InsertTermAscending(FoldedTerms(AliasesOf(v.cell)), Casefold(LastPart(MetricKeyOf(v), '.')));
  }

  lemma TaughtScore(sc: Scorer, g: Graph, metricKey: string, alias: string, name: string, v: NodeView)
    requires sc.Valid() && v in MetricView(g)
    ensures exists v' :: v' in MetricView(LearnAlias(g, metricKey, alias)) && MetricKeyOf(v') == MetricKeyOf(v)
                      && Best(sc, name, TermsOf(v)) <= Best(sc, name, TermsOf(v'))
  {
    var view, view' := MetricView(g), MetricView(LearnAlias(g, metricKey, alias));
    var taught := NodeView(Metric(metricKey), TaughtCell(g, metricKey, alias));
    TaughtView(g, metricKey, alias);
    ViewCells(g, v);
    var i :| 0 <= i < |view| && view[i] == v;
    if v.id == Metric(metricKey) {
      assert view'[i] == taught;
      TaughtLists(g, metricKey, alias, "");
      forall t | t in TermsOf(v) ensures t in TermsOf(taught) {
        TaughtLists(g, metricKey, alias, t);
        TermsOfMembers(v, t);
        TermsOfMembers(taught, t);
      }
      BestMonotone(sc, name, TermsOf(v), TermsOf(taught));
      assert taught in view';
    } else {
      assert view'[i] == v;
      assert v in view';
    }
  }

  lemma EntriesAreMetrics(g: Graph, e: TermEntry)
    requires Keyed(g)
    ensures e in TermsByMetric(g) <==> exists v :: v in MetricView(g) && e == TermEntry(MetricKeyOf(v), TermsOf(v))
  {
    KeyedViewDistinct(g);
    TermTableMembers(MetricView(g), e);
    var view := MetricView(g);
    if v :| v in view && e == TermEntry(MetricKeyOf(v), TermsOf(v)) {
      var i :| 0 <= i < |view| && view[i] == v;
      assert EntryOf(view[i], e);
    }
  }

  /** Adding an alias never lowers the score of any metric for any name. */
  lemma LearningNeverLowersScores(f: Funnel, g: Graph, metricKey: string, alias: string, name: string, e: TermEntry)
    requires f.scorer.Valid() && Keyed(g) && e in TermsByMetric(g)
    ensures exists e' :: e' in TermsByMetric(LearnAlias(g, metricKey, alias)) && e'.metricKey == e.metricKey
                      && Best(f.scorer, name, e.terms) <= Best(f.scorer, name, e'.terms)
                      && f.scorer.round(Best(f.scorer, name, e.terms)) <= f.scorer.round(Best(f.scorer, name, e'.terms))
  {
    var g' := LearnAlias(g, metricKey, alias);
    EntriesAreMetrics(g, e);
    var v :| v in MetricView(g) && e == TermEntry(MetricKeyOf(v), TermsOf(v));
    TaughtScore(f.scorer, g, metricKey, alias, name, v);
    var v' :| v' in MetricView(g') && MetricKeyOf(v') == MetricKeyOf(v)
      && Best(f.scorer, name, TermsOf(v)) <= Best(f.scorer, name, TermsOf(v'));
    var e' := TermEntry(MetricKeyOf(v'), TermsOf(v'));
    assert e' in TermsByMetric(g') by {
      LearnKeepsKeys(g, metricKey, alias);
      EntriesAreMetrics(g', e');
    }
  }
}
