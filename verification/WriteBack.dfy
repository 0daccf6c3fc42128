/** Write-back: what whole runs of resolving, confirming and loading do to tier 1. Reloading a
    pack is not among these actions; it may take aliases away (see Packs). */
module WriteBack {
  import opened Wrappers
  import opened PyStrings
  import opened Graphs
  import opened GraphLaws
  import opened Stores
  import opened Client
  import opened WriteLaws
  import opened AliasLaws
  import opened Ir
  import opened Resolvers
  import opened LoadLaws

  datatype Action =
    | Resolve(column: ObservedColumn)
    | Confirm(column: ObservedColumn, metricKey: string, prov: EdgeProvenance)
    | Load(bundle: ParsedBundle)

  function Do(allow: Allow, g: Graph, a: Action): Graph {
    match a
    case Resolve(_) => g
    case Confirm(c, k, prov) => Confirmed(g, c, k, prov)
    case Load(b) => Loaded(allow, g, b)
  }

  function DoAll(allow: Allow, g: Graph, run: seq<Action>): Graph {
    if run == [] then g else Do(allow, DoAll(allow, g, run[..|run| - 1]), run[|run| - 1])
  }

  /** The names confirmed in a run, case-folded. */
  function ConfirmedNames(run: seq<Action>): set<string> {
    if run == [] then {} else
      ConfirmedNames(run[..|run| - 1])
        + if run[|run| - 1].Confirm? then {Casefold(run[|run| - 1].column.name)} else {}
  }

  lemma LinkKeepsIndex(g: Graph, c: ObservedColumn, metricKey: string, prov: EdgeProvenance)
    ensures Index(LinkedTo(g, c, metricKey, prov)) == Index(g)
    ensures Keyed(g) ==> Keyed(LinkedTo(g, c, metricKey, prov))
  {
    assert LinkedTo(g, c, metricKey, prov).nodes == g.nodes;
  }

  /** Confirming changes the index at the confirmed name only; that name is in it afterwards,
      and if it was not before it resolves to exactly the confirmed metric. */
  lemma ConfirmEffect(g: Graph, c: ObservedColumn, metricKey: string, prov: EdgeProvenance)
    ensures var g' := Confirmed(g, c, metricKey, prov);
            var name := Casefold(c.name);
            && (Keyed(g) ==> Keyed(g'))
            && Index(g').Keys == Index(g).Keys + {name}
            && (forall other :: other in Index(g) && other != name ==> Index(g')[other] == Index(g)[other])
            && (name !in Index(g) ==> Index(g')[name] == StoredKey(g, metricKey))
  {
    LinkKeepsIndex(g, c, metricKey, prov);
    CasefoldIdempotent(c.name);
    LearnedEffect(LinkedTo(g, c, metricKey, prov), metricKey, Casefold(c.name));
  }

  /** What one taught alias does. */
  lemma LearnedEffect(g: Graph, metricKey: string, name: string)
    requires Casefold(name) == name
    ensures var g' := LearnAlias(g, metricKey, name);
            && (Keyed(g) ==> Keyed(g'))
            && Index(g').Keys == Index(g).Keys + {name}
            && (forall other :: other in Index(g) && other != name ==> Index(g')[other] == Index(g)[other])
            && (name !in Index(g) ==> Index(g')[name] == StoredKey(g, metricKey))
  {
    var g' := LearnAlias(g, metricKey, name);
    assert Keyed(g) ==> Keyed(g') by {
      if Keyed(g) { LearnKeepsKeys(g, metricKey, name); }
    }
    assert name in Index(g') && (name !in Index(g) ==> Index(g')[name] == StoredKey(g, metricKey)) by {
      LearnEffect(g, metricKey, name);
      if name !in Index(g) { LearnNew(g, metricKey, name); }
    }
    LearnEffect(g, metricKey, name);
  }

  /** After a confirmation the name maps to the confirmed metric exactly when no later-inserted
      metric lists it. */
  lemma ConfirmOwner(g: Graph, c: ObservedColumn, metricKey: string, prov: EdgeProvenance)
    requires Keyed(g)
    ensures var g', name := Confirmed(g, c, metricKey, prov), Casefold(c.name);
            var view := MetricView(g');
            && name in Index(g')
            && (Index(g')[name] == metricKey <==>
                forall i, j :: 0 <= i < j < |view| && view[i].id == Metric(metricKey) ==> !Lists(view[j], name))
  {
    LinkKeepsIndex(g, c, metricKey, prov);
    CasefoldIdempotent(c.name);
    LearnOwner(LinkedTo(g, c, metricKey, prov), metricKey, Casefold(c.name));
  }

  function ConfirmWrites(g: Graph, c: ObservedColumn, metricKey: string, prov: EdgeProvenance): seq<Write> {
    [EdgeWrite(Measures(c.system, c.table, c.name, metricKey), prov),
     LearnWrite(LinkedTo(g, c, metricKey, prov), metricKey, Casefold(c.name))]
  }

  lemma ConfirmIsWrites(g: Graph, c: ObservedColumn, metricKey: string, prov: EdgeProvenance)
    ensures Confirmed(g, c, metricKey, prov) == ApplyAll(g, ConfirmWrites(g, c, metricKey, prov))
  {
    var ws := ConfirmWrites(g, c, metricKey, prov);
    assert ws == [ws[0]] + [ws[1]];
    ApplyAllConcat(g, [ws[0]], [ws[1]]);
    ApplyOne(g, ws[0]);
    ApplyOne(LinkedTo(g, c, metricKey, prov), ws[1]);
  }

  lemma LinkKeepsAliases(g: Graph, c: ObservedColumn, metricKey: string, prov: EdgeProvenance)
    ensures StoredAliases(LinkedTo(g, c, metricKey, prov), metricKey) == StoredAliases(g, metricKey)
  {
    StoredAfter(g, EdgeWrite(Measures(c.system, c.table, c.name, metricKey), prov), metricKey);
  }

  /** Confirming twice, with the same provenance, is confirming once. */
  lemma ConfirmTwice(g: Graph, c: ObservedColumn, metricKey: string, prov: EdgeProvenance)
    ensures Confirmed(Confirmed(g, c, metricKey, prov), c, metricKey, prov) == Confirmed(g, c, metricKey, prov)
  {
    var once, ws := Confirmed(g, c, metricKey, prov), ConfirmWrites(g, c, metricKey, prov);
    LinkKeepsAliases(once, c, metricKey, prov);
    LearnSettles(LinkedTo(g, c, metricKey, prov), metricKey, Casefold(c.name));
    assert ConfirmWrites(once, c, metricKey, prov) == ws;
    ConfirmIsWrites(g, c, metricKey, prov);
    ConfirmIsWrites(once, c, metricKey, prov);
    Absorb(g, ws, ws);
  }

  /** After a confirmation the column leads to the metric. */
  lemma ConfirmLeads(g: Graph, c: ObservedColumn, metricKey: string, prov: EdgeProvenance)
    ensures Leads(Confirmed(g, c, metricKey, prov), Column(c.system, c.table, c.name), "MEASURES", Metric(metricKey),
                  None, prov)
  {
    var e := Measures(c.system, c.table, c.name, metricKey);
    EdgeLeads(g, e, prov);
    LinkStays(LinkedTo(g, c, metricKey, prov), e, metricKey, Casefold(c.name), prov);
  }

  /** And the metric lists the column's folded name, after whatever it listed before. */
  lemma ConfirmTells(g: Graph, c: ObservedColumn, metricKey: string, prov: EdgeProvenance)
    ensures var before, lower := ReadAliases(g, metricKey), Casefold(c.name);
            Read(Confirmed(g, c, metricKey, prov), Metric(metricKey), "aliases")
              == Some(Texts(if lower in before then before else before + [lower]))
  {
    LinkKeepsReads(g, c, metricKey, prov);
    LessonAppends(LinkedTo(g, c, metricKey, prov), ReadAliases(g, metricKey), metricKey, Casefold(c.name));
  }

  lemma LinkKeepsReads(g: Graph, c: ObservedColumn, metricKey: string, prov: EdgeProvenance)
    ensures ReadAliases(LinkedTo(g, c, metricKey, prov), metricKey) == ReadAliases(g, metricKey)
  {
    SameReads(g, LinkedTo(g, c, metricKey, prov), metricKey);
  }

  lemma SameReads(g: Graph, h: Graph, metricKey: string)
    requires g.nodes == h.nodes
    ensures ReadAliases(g, metricKey) == ReadAliases(h, metricKey)
  {
  }

  lemma LessonAppends(g: Graph, before: seq<string>, metricKey: string, alias: string)
    requires ReadAliases(g, metricKey) == before
    ensures Read(LearnAlias(g, metricKey, alias), Metric(metricKey), "aliases")
         == Some(Texts(if alias in before then before else before + [alias]))
  {
    LessonTells(g, metricKey, alias, "");
  }

  lemma LinkStays(g: Graph, e: EdgeId, metricKey: string, alias: string, prov: EdgeProvenance)
    requires Leads(g, e.src, e.rel, e.dst, e.role, prov)
    ensures Leads(LearnAlias(g, metricKey, alias), e.src, e.rel, e.dst, e.role, prov)
  {
    assert e == EdgeId(e.rel, e.src, e.dst, e.role) && LearnAlias(g, metricKey, alias).edges == g.edges;
    StoredLeads(LearnAlias(g, metricKey, alias), e, prov);
  }

  lemma ApplyPresent(g: Graph, w: Write, r: Ref)
    ensures Present(Apply(g, w), r) <==> Present(g, r) || w.ref == r
  {
    FindAfter(g, w, r);
  }

  /** A confirmation adds the link and, if need be, the metric; nothing else appears. */
  lemma ConfirmStores(g: Graph, c: ObservedColumn, metricKey: string, prov: EdgeProvenance, r: Ref)
    ensures Present(Confirmed(g, c, metricKey, prov), r) <==>
            || Present(g, r)
            || r == EdgeRef(Measures(c.system, c.table, c.name, metricKey)) || r == NodeRef(Metric(metricKey))
  {
    var linked := LinkedTo(g, c, metricKey, prov);
    ApplyPresent(g, EdgeWrite(Measures(c.system, c.table, c.name, metricKey), prov), r);
    ApplyPresent(linked, Write(NodeRef(Metric(metricKey)), TaughtDelta(linked, metricKey, Casefold(c.name))), r);
  }

  lemma LinkIsShown(g: Graph, system: string, table: string, name: string, k: string)
    requires Present(g, NodeRef(Column(system, table, name))) && Present(g, NodeRef(Metric(k)))
    requires Present(g, EdgeRef(Measures(system, table, name, k)))
    ensures var found := ResolvedColumn(g, system, table, name);
            found.Some? && exists hit :: hit in found.value.metrics && hit.metric.id == Metric(k)
  {
    var e := Measures(system, table, name, k);
    StoredEdgeIsNeighbor(g, e);
    var n := Neighbor(NodeView(e.dst, g.nodes.cells[e.dst]), g.edges.cells[e]);
    HitIsListed(g, system, table, name, n);
    assert Hit(g, n.node).metric.id == Metric(k);
  }

  /** So reading a stored column after a confirmation shows the confirmed metric, whatever was
      known of that metric before. */
  lemma ConfirmShows(g: Graph, c: ObservedColumn, metricKey: string, prov: EdgeProvenance)
    requires Present(g, NodeRef(Column(c.system, c.table, c.name)))
    ensures var found := ResolvedColumn(Confirmed(g, c, metricKey, prov), c.system, c.table, c.name);
            found.Some? && exists hit :: hit in found.value.metrics && hit.metric.id == Metric(metricKey)
  {
    forall r { ConfirmStores(g, c, metricKey, prov, r); }
    LinkIsShown(Confirmed(g, c, metricKey, prov), c.system, c.table, c.name, metricKey);
  }

  /** The next column of the confirmed name auto-links to the confirmed metric. */
  lemma ConfirmResolves(f: Funnel, g: Graph, c: ObservedColumn, metricKey: string, prov: EdgeProvenance,
                        next: ObservedColumn)
    requires Casefold(c.name) !in Index(g) && Casefold(next.name) == Casefold(c.name)
    ensures Decide(f, Confirmed(g, c, metricKey, prov), next)
         == Resolution(next, AutoLinked, Some(StoredKey(g, metricKey)), 1.0, [])
    ensures Keyed(g) ==> StoredKey(g, metricKey) == metricKey
  {
    ConfirmEffect(g, c, metricKey, prov);
    if Keyed(g) { StoredKeyKeyed(g, metricKey); }
  }

  lemma LoadKeepsKeyed(allow: Allow, g: Graph, b: ParsedBundle)
    requires Keyed(g)
    ensures Keyed(Loaded(allow, g, b))
  {
    var after := Loaded(allow, g, b);
    LoadKeepsMetrics(allow, g, b);
    forall k | Metric(k) in after.nodes.cells
      ensures MetricKeyOf(NodeView(Metric(k), after.nodes.cells[Metric(k)])) == k
    {
      var v := NodeView(Metric(k), after.nodes.cells[Metric(k)]);
      NodesByLabelMembers(after, "Metric", v);
      ViewCells(g, v);
    }
  }

  lemma StepEffect(allow: Allow, g: Graph, a: Action)
    ensures Keyed(g) ==> Keyed(Do(allow, g, a))
    ensures Index(Do(allow, g, a)).Keys == Index(g).Keys + if a.Confirm? then {Casefold(a.column.name)} else {}
  {
    match a
    case Resolve(_) =>
    case Confirm(c, k, prov) => ConfirmEffect(g, c, k, prov);
    case Load(b) =>
      if Keyed(g) { LoadKeepsKeyed(allow, g, b); }
      LoadKeepsMetrics(allow, g, b);
  }

  /** Over a whole run, the names at tier 1 are exactly those that were there and those that
      were confirmed. */
  lemma {:induction false} TierOneOverRuns(allow: Allow, g: Graph, run: seq<Action>)
    ensures Keyed(g) ==> Keyed(DoAll(allow, g, run))
    ensures Index(DoAll(allow, g, run)).Keys == Index(g).Keys + ConfirmedNames(run)
  {
    if run != [] {
      TierOneOverRuns(allow, g, run[..|run| - 1]);
      StepEffect(allow, DoAll(allow, g, run[..|run| - 1]), run[|run| - 1]);
    }
  }

  /** The names of a vocabulary that are not at tier 1. */
  function Unresolved(g: Graph, names: set<string>): set<string> { names - Index(g).Keys }

  /** A name at tier 1 stays at tier 1. */
  lemma TierOneStays(allow: Allow, f: Funnel, g: Graph, run: seq<Action>, c: ObservedColumn)
    requires Decide(f, g, c).tier == AutoLinked
    ensures Decide(f, DoAll(allow, g, run), c).tier == AutoLinked
  {
    TierOneOverRuns(allow, g, run);
    assert Casefold(c.name) in Index(g).Keys;
    assert Casefold(c.name) in Index(DoAll(allow, g, run)).Keys;
  }

  /** Over any run, the unresolved part of any case-folded vocabulary shrinks by exactly
      its unresolved names that were confirmed. */
  lemma Decay(allow: Allow, g: Graph, run: seq<Action>, names: set<string>)
    ensures var before, after := Unresolved(g, names), Unresolved(DoAll(allow, g, run), names);
            after == before - ConfirmedNames(run) && |after| == |before| - |before * ConfirmedNames(run)|
  {
    var before, confirmed := Unresolved(g, names), ConfirmedNames(run);
    assert Unresolved(DoAll(allow, g, run), names) == before - confirmed by { TierOneOverRuns(allow, g, run); }
    SplitCount(before, confirmed);
  }

  lemma SplitCount<T>(a: set<T>, b: set<T>)
    ensures |a - b| == |a| - |a * b|
  {
    assert a == (a - b) + (a * b);
  }

  lemma OneFewer<T>(names: set<T>, known: set<T>, name: T)
    requires name in names && name !in known
    ensures |names - (known + {name})| == |names - known| - 1
  {
    assert names - (known + {name}) == (names - known) - {name};
  }

  /** One confirmation of a name not yet at tier 1 lowers the count by exactly one. */
  lemma ConfirmLowersByOne(g: Graph, c: ObservedColumn, metricKey: string, prov: EdgeProvenance, names: set<string>)
    requires Casefold(c.name) in names && Casefold(c.name) !in Index(g)
    ensures |Unresolved(Confirmed(g, c, metricKey, prov), names)| == |Unresolved(g, names)| - 1
  {
    var name, before, after := Casefold(c.name), Index(g).Keys, Index(Confirmed(g, c, metricKey, prov)).Keys;
    assert after == before + {name} by { ConfirmEffect(g, c, metricKey, prov); }
    OneFewer(names, before, name);
  }
}
