/** The client over the store: typed writes checked against the allow-lists, and the reads
    the resolver works from. */
module Client {
  import opened Wrappers
  import opened PyStrings
  import opened Graphs
  import opened Stores

  datatype EdgeProvenance = EdgeProvenance(sourceRef: string, asOf: string, createdBy: string)

  /** What the loaded packs permit. */
  datatype Allow = Allow(subtypes: set<string>, edgeTypes: set<string>)

  const RELATED_TO := "RELATED_TO"

  datatype MetricFields = MetricFields(
    formula: Option<string>, unit: Option<string>, numeratorDef: Option<string>,
    denominatorDef: Option<string>, provenance: Option<string>)

  /** The write calls of the client. */
  datatype Op =
    | UpsertEntity(uid: string, subtype: Option<string>, attributes: Props)
    | UpsertMetric(metricKey: string, fields: MetricFields, metricAttributes: Props)
    | UpsertColumn(system: string, table: string, name: string, dtype: Option<string>,
                   sampleValues: seq<string>, hasDictionary: bool)
    | UpsertDocument(uri: string, title: Option<string>, text: string, documentAsOf: Option<string>)
    | UpsertBenchmark(benchmarkKey: string, benchmarkAttributes: Props)
    | UpsertParty(partyUid: string, partyAttributes: Props)
    | Link(edge: EdgeId, prov: EdgeProvenance)
    | RelateEntities(subject: string, object_: string, role: string, prov: EdgeProvenance, relType: string)
    | SetAliases(metricKey: string, aliases: seq<string>)

  function Optional(o: Option<string>): Value {
    match o
    case Some(s) => Text(s)
    case None => Null
  }

  function ProvenanceProps(p: EdgeProvenance): Props {
    map["source_ref" := Text(p.sourceRef), "as_of" := Text(p.asOf), "created_by" := Text(p.createdBy)]
  }

  function ColumnProps(dtype: Option<string>, sampleValues: seq<string>, hasDictionary: bool): Props {
    map["dtype" := Optional(dtype), "sample_values" := Texts(sampleValues), "has_dictionary" := Flag(hasDictionary)]
  }

  function DocumentProps(title: Option<string>, text: string, asOf: Option<string>): Props {
    map["title" := Optional(title), "text" := Text(text), "as_of" := Optional(asOf)]
  }

  function AliasProps(aliases: seq<string>): Props {
    map["aliases" := Texts(aliases)]
  }

  function MetricProps(f: MetricFields, attributes: Props): Props {
    map["formula" := Optional(f.formula), "unit" := Optional(f.unit),
        "numerator_def" := Optional(f.numeratorDef), "denominator_def" := Optional(f.denominatorDef),
        "provenance" := Optional(f.provenance)] + attributes
  }

  // The spine edges the client composes.
  function Measures(system: string, table: string, name: string, metricKey: string): EdgeId {
    EdgeId("MEASURES", Column(system, table, name), Metric(metricKey), None)
  }
  function AppliesTo(metricKey: string, uid: string): EdgeId {
    EdgeId("APPLIES_TO", Metric(metricKey), Entity(uid), None)
  }
  function DefinedIn(metricKey: string, uri: string): EdgeId {
    EdgeId("DEFINED_IN", Metric(metricKey), Document(uri), None)
  }
  function BenchmarkedAgainst(metricKey: string, benchmarkKey: string): EdgeId {
    EdgeId("BENCHMARKED_AGAINST", Metric(metricKey), Benchmark(benchmarkKey), None)
  }
  function ComputedFrom(metricKey: string, source: string): EdgeId {
    EdgeId("COMPUTED_FROM", Metric(metricKey), Metric(source), None)
  }
  function Describes(uri: string, uid: string): EdgeId {
    EdgeId("DESCRIBES", Document(uri), Entity(uid), None)
  }
  function HasRole(partyUid: string, uid: string, role: string): EdgeId {
    EdgeId("HAS_ROLE", Party(partyUid), Entity(uid), Some(role))
  }

  /** The identities the link methods can produce. */
  predicate SpineEdge(e: EdgeId) {
    || (e.rel == "MEASURES" && e.src.Column? && e.dst.Metric? && e.role.None?)
    || (e.rel == "APPLIES_TO" && e.src.Metric? && e.dst.Entity? && e.role.None?)
    || (e.rel == "DEFINED_IN" && e.src.Metric? && e.dst.Document? && e.role.None?)
    || (e.rel == "BENCHMARKED_AGAINST" && e.src.Metric? && e.dst.Benchmark? && e.role.None?)
    || (e.rel == "COMPUTED_FROM" && e.src.Metric? && e.dst.Metric? && e.role.None?)
    || (e.rel == "DESCRIBES" && e.src.Document? && e.dst.Entity? && e.role.None?)
    || (e.rel == "HAS_ROLE" && e.src.Party? && e.dst.Entity? && e.role.Some?)
  }

  /** Calls the client lets through. */
  predicate Allowed(a: Allow, op: Op) {
    match op
    case UpsertEntity(_, subtype, _) => subtype.Some? ==> subtype.value in a.subtypes
    case Link(e, _) => SpineEdge(e)
    case RelateEntities(_, _, _, _, relType) => relType == RELATED_TO || relType in a.edgeTypes
    case _ => true
  }

  function Related(relType: string, subject: string, object_: string, role: string): EdgeId {
    EdgeId(relType, Entity(subject), Entity(object_), Some(role))
  }

  /** Provenance is folded onto every edge. */
  function EdgeWrite(e: EdgeId, prov: EdgeProvenance): Write {
    Write(EdgeRef(e), Cell({}, ProvenanceProps(prov)))
  }

  /** The single upsert a call makes. */
  function Effect(op: Op): Write {
    match op
    case UpsertEntity(uid, subtype, attributes) =>
      var extra := if subtype.Some? && subtype.value != "" then {subtype.value} else {};
      Write(NodeRef(Entity(uid)), Cell(extra, Clean(attributes)))
    case UpsertMetric(k, fields, attributes) =>
      Write(NodeRef(Metric(k)), Cell({}, Clean(MetricProps(fields, attributes))))
    case UpsertColumn(s, t, n, dtype, samples, dict) =>
      Write(NodeRef(Column(s, t, n)), Cell({}, Clean(ColumnProps(dtype, samples, dict))))
    case UpsertDocument(uri, title, text, asOf) =>
      Write(NodeRef(Document(uri)), Cell({}, Clean(DocumentProps(title, text, asOf))))
    case UpsertBenchmark(k, attributes) => Write(NodeRef(Benchmark(k)), Cell({}, Clean(attributes)))
    case UpsertParty(uid, attributes) => Write(NodeRef(Party(uid)), Cell({}, Clean(attributes)))
    case Link(e, prov) => EdgeWrite(e, prov)
    case RelateEntities(s, o, role, prov, relType) => EdgeWrite(Related(relType, s, o, role), prov)
    case SetAliases(k, aliases) => Write(NodeRef(Metric(k)), Cell({}, AliasProps(aliases)))
  }

  function Perform(a: Allow, g: Graph, op: Op): Graph {
    if Allowed(a, op) then Apply(g, Effect(op)) else g
  }

  // ---- Metric reads --------------------------------------------------------------------

  function MetricView(g: Graph): seq<NodeView> { NodesByLabel(g, "Metric") }

  /** `m.get("aliases") or ()`, as the loop over it sees it. */
  function AliasesOf(cell: Cell): seq<string> {
    if "aliases" !in cell.props then [] else
      match cell.props["aliases"]
      case Texts(items) => items
      case Text(t) => seq(|t|, i requires 0 <= i < |t| => [t[i]])
      case _ => []
  }

  /** `m["metric_key"]` */
  function MetricKeyOf(v: NodeView): string {
    if "metric_key" in v.cell.props && v.cell.props["metric_key"].Text? then v.cell.props["metric_key"].text else ""
  }

  /** Every stored metric still carries its own key property. */
  ghost predicate Keyed(g: Graph) {
    forall k :: Metric(k) in g.nodes.cells ==> MetricKeyOf(NodeView(Metric(k), g.nodes.cells[Metric(k)])) == k
  }

  function AddAliases(index: map<string, string>, aliases: seq<string>, metricKey: string): map<string, string> {
    if aliases == [] then index else
      AddAliases(index, aliases[..|aliases| - 1], metricKey)[Casefold(aliases[|aliases| - 1]) := metricKey]
  }

  function AliasIndex(view: seq<NodeView>): map<string, string> {
    if view == [] then map[] else
      var v := view[|view| - 1];
      AddAliases(AliasIndex(view[..|view| - 1]), AliasesOf(v.cell), MetricKeyOf(v))
  }

  function Index(g: Graph): map<string, string> { AliasIndex(MetricView(g)) }

  /** Insertion into a sorted list without repetitions. */
  function InsertTerm(terms: seq<string>, t: string): seq<string> {
    if terms == [] then [t]
    else if t == terms[0] then terms
    else if AtMost(t, terms[0]) then [t] + terms
    else [terms[0]] + InsertTerm(terms[1..], t)
  }

  function FoldedTerms(aliases: seq<string>): seq<string> {
    if aliases == [] then [] else
      InsertTerm(FoldedTerms(aliases[..|aliases| - 1]), Casefold(aliases[|aliases| - 1]))
  }

  /** The folded aliases and the local part of the key, sorted. */
  function TermsOf(v: NodeView): seq<string> {
    InsertTerm(FoldedTerms(AliasesOf(v.cell)), Casefold(LastPart(MetricKeyOf(v), '.')))
  }

  datatype TermEntry = TermEntry(metricKey: string, terms: seq<string>)

  /** Dictionary assignment: an existing key keeps its place. */
  function PutEntry(entries: seq<TermEntry>, e: TermEntry): seq<TermEntry> {
    if entries == [] then [e]
    else if entries[0].metricKey == e.metricKey then [e] + entries[1..]
    else [entries[0]] + PutEntry(entries[1..], e)
  }

  function TermTable(view: seq<NodeView>): seq<TermEntry> {
    if view == [] then [] else
      var v := view[|view| - 1];
      PutEntry(TermTable(view[..|view| - 1]), TermEntry(MetricKeyOf(v), TermsOf(v)))
  }

  function TermsByMetric(g: Graph): seq<TermEntry> { TermTable(MetricView(g)) }

  function StoredAliases(g: Graph, metricKey: string): seq<string> {
    match Find(g, NodeRef(Metric(metricKey)))
    case Some(cell) => AliasesOf(cell)
    case None => []
  }

  function LearnedAliases(g: Graph, metricKey: string, alias: string): seq<string> {
    var current := StoredAliases(g, metricKey);
    if alias in current then current else current + [alias]
  }

  /** What teaching an alias writes to the metric. */
  function TaughtDelta(g: Graph, metricKey: string, alias: string): Cell {
    Cell({}, AliasProps(LearnedAliases(g, metricKey, alias)))
  }

  function LearnWrite(g: Graph, metricKey: string, alias: string): Write {
    Write(NodeRef(Metric(metricKey)), TaughtDelta(g, metricKey, alias))
  }

  function LearnAlias(g: Graph, metricKey: string, alias: string): Graph {
    Apply(g, LearnWrite(g, metricKey, alias))
  }

  // ---- The column read path --------------------------------------------------------------

  datatype MetricHit = MetricHit(metric: NodeView, appliesTo: seq<NodeView>)
  datatype ColumnView = ColumnView(column: Cell, metrics: seq<MetricHit>)

  function NodesOf(ns: seq<Neighbor>): seq<NodeView> {
    seq(|ns|, i requires 0 <= i < |ns| => ns[i].node)
  }

  function Hit(g: Graph, metric: NodeView): MetricHit {
    MetricHit(metric, NodesOf(OutNeighbors(g, Metric(MetricKeyOf(metric)), "APPLIES_TO")))
  }

  function Hits(g: Graph, measured: seq<Neighbor>): seq<MetricHit> {
    seq(|measured|, i requires 0 <= i < |measured| => Hit(g, measured[i].node))
  }

  function ResolvedColumn(g: Graph, system: string, table: string, name: string): Option<ColumnView> {
    match Find(g, NodeRef(Column(system, table, name)))
    case None => None
    case Some(cell) =>
      Some(ColumnView(cell, Hits(g, OutNeighbors(g, Column(system, table, name), "MEASURES"))))
  }

  class GraphClient {
    const store: InMemoryGraphStore
    var entitySubtypes: set<string>
    var packEdgeTypes: set<string>

    function AllowLists(): Allow
      reads this
    {
      Allow(entitySubtypes, packEdgeTypes)
    }

    function Contents(): Graph
      reads store
    {
      store.Contents()
    }

    ghost function History(): Journal
      reads store
    {
      store.History()
    }

    constructor (store: InMemoryGraphStore)
      ensures this.store == store && AllowLists() == Allow({}, {})
    {
      this.store := store;
      entitySubtypes, packEdgeTypes := {}, {};
    }

    method RegisterAllowlists(subtypes: set<string>, edgeTypes: set<string>)
      modifies this
      ensures AllowLists() == Allow(old(entitySubtypes) + subtypes, old(packEdgeTypes) + edgeTypes)
    {
      entitySubtypes := entitySubtypes + subtypes;
      packEdgeTypes := packEdgeTypes + edgeTypes;
    }

    method UpsertEntity(uid: string, subtype: Option<string>, attributes: Props) returns (r: Result<()>)
      modifies store
      ensures var op := Op.UpsertEntity(uid, subtype, attributes);
              && (r.Ok? <==> Allowed(AllowLists(), op))
              && History() == if r.Ok? then Record(old(History()), Effect(op)) else old(History())
      ensures r.Ok? <==> subtype.None? || subtype.value in entitySubtypes
      ensures r.Err? ==> r.error == WriteValidationError(subtype.value)
    {
      if subtype.Some? && subtype.value !in entitySubtypes {
        return Err(WriteValidationError(subtype.value));
      }
      var extra := if subtype.Some? && subtype.value != "" then {subtype.value} else {};
      store.UpsertNode(Entity(uid), Clean(attributes), extra);
      r := Ok(());
    }

    method UpsertMetric(metricKey: string, fields: MetricFields, attributes: Props)
      modifies store
      ensures History() == Record(old(History()), Effect(Op.UpsertMetric(metricKey, fields, attributes)))
    {
      store.UpsertNode(Metric(metricKey), Clean(MetricProps(fields, attributes)), {});
    }

    method UpsertColumn(system: string, table: string, name: string, dtype: Option<string>,
                        sampleValues: seq<string>, hasDictionary: bool)
      modifies store
      ensures History() == Record(old(History()),
                Effect(Op.UpsertColumn(system, table, name, dtype, sampleValues, hasDictionary)))
    {
      store.UpsertNode(Column(system, table, name), Clean(ColumnProps(dtype, sampleValues, hasDictionary)), {});
    }

    method UpsertDocument(uri: string, title: Option<string>, text: string, asOf: Option<string>)
      modifies store
      ensures History() == Record(old(History()), Effect(Op.UpsertDocument(uri, title, text, asOf)))
    {
      store.UpsertNode(Document(uri), Clean(DocumentProps(title, text, asOf)), {});
    }

    method UpsertBenchmark(benchmarkKey: string, attributes: Props)
      modifies store
      ensures History() == Record(old(History()), Effect(Op.UpsertBenchmark(benchmarkKey, attributes)))
    {
      store.UpsertNode(Benchmark(benchmarkKey), Clean(attributes), {});
    }

    method UpsertParty(uid: string, attributes: Props)
      modifies store
      ensures History() == Record(old(History()), Effect(Op.UpsertParty(uid, attributes)))
    {
      store.UpsertNode(Party(uid), Clean(attributes), {});
    }

    method Edge(rel: string, src: NodeId, dst: NodeId, prov: EdgeProvenance, role: Option<string>)
      modifies store
      ensures History() == Record(old(History()), EdgeWrite(EdgeId(rel, src, dst, role), prov))
    {
      store.UpsertEdge(EdgeId(rel, src, dst, role), ProvenanceProps(prov));
    }

    method LinkColumnToMetric(system: string, table: string, name: string, metricKey: string, prov: EdgeProvenance)
      modifies store
      ensures History() == Record(old(History()), Effect(Link(Measures(system, table, name, metricKey), prov)))
    {
      Edge("MEASURES", Column(system, table, name), Metric(metricKey), prov, None);
    }

    method LinkMetricToEntity(metricKey: string, entityUid: string, prov: EdgeProvenance)
      modifies store
      ensures History() == Record(old(History()), Effect(Link(AppliesTo(metricKey, entityUid), prov)))
    {
      Edge("APPLIES_TO", Metric(metricKey), Entity(entityUid), prov, None);
    }

    method LinkMetricToDocument(metricKey: string, uri: string, prov: EdgeProvenance)
      modifies store
      ensures History() == Record(old(History()), Effect(Link(DefinedIn(metricKey, uri), prov)))
    {
      Edge("DEFINED_IN", Metric(metricKey), Document(uri), prov, None);
    }

    method LinkMetricToBenchmark(metricKey: string, benchmarkKey: string, prov: EdgeProvenance)
      modifies store
      ensures History() == Record(old(History()), Effect(Link(BenchmarkedAgainst(metricKey, benchmarkKey), prov)))
    {
      Edge("BENCHMARKED_AGAINST", Metric(metricKey), Benchmark(benchmarkKey), prov, None);
    }

    method LinkMetricComputedFrom(metricKey: string, sourceMetricKey: string, prov: EdgeProvenance)
      modifies store
      ensures History() == Record(old(History()), Effect(Link(ComputedFrom(metricKey, sourceMetricKey), prov)))
    {
      Edge("COMPUTED_FROM", Metric(metricKey), Metric(sourceMetricKey), prov, None);
    }

    method LinkDocumentToEntity(uri: string, entityUid: string, prov: EdgeProvenance)
      modifies store
      ensures History() == Record(old(History()), Effect(Link(Describes(uri, entityUid), prov)))
    {
      Edge("DESCRIBES", Document(uri), Entity(entityUid), prov, None);
    }

    method LinkPartyToEntity(partyUid: string, entityUid: string, role: string, prov: EdgeProvenance)
      modifies store
      ensures History() == Record(old(History()), Effect(Link(HasRole(partyUid, entityUid, role), prov)))
    {
      Edge("HAS_ROLE", Party(partyUid), Entity(entityUid), prov, Some(role));
    }

    method RelateEntities(subject: string, object_: string, role: string, prov: EdgeProvenance, relType: string)
      returns (r: Result<()>)
      modifies store
      ensures var op := Op.RelateEntities(subject, object_, role, prov, relType);
              && (r.Ok? <==> Allowed(AllowLists(), op))
              && History() == if r.Ok? then Record(old(History()), Effect(op)) else old(History())
      ensures r.Ok? <==> relType == "RELATED_TO" || relType in packEdgeTypes
      ensures r.Err? ==> r.error == WriteValidationError(relType)
      ensures store.log == old(store.log)
                + if r.Ok? then [EdgeWrite(EdgeId(relType, Entity(subject), Entity(object_), Some(role)), prov)] else []
    {
      ghost var op := Op.RelateEntities(subject, object_, role, prov, relType);
      if relType != RELATED_TO && relType !in packEdgeTypes {
        assert !Allowed(AllowLists(), op);
        return Err(WriteValidationError(relType));
      }
      assert Effect(op) == EdgeWrite(Related(relType, subject, object_, role), prov);
      Edge(relType, Entity(subject), Entity(object_), prov, Some(role));
      r := Ok(());
    }

    static method IndexAliases(index: map<string, string>, aliases: seq<string>, metricKey: string)
      returns (index': map<string, string>)
      ensures index' == AddAliases(index, aliases, metricKey)
    {
      index' := index;
      for j := 0 to |aliases|
        invariant index' == AddAliases(index, aliases[..j], metricKey)
      {
        assert aliases[..j + 1][..j] == aliases[..j];
        index' := index'[Casefold(aliases[j]) := metricKey];
      }
      assert aliases[..|aliases|] == aliases;
    }

    method MetricAliases() returns (index: map<string, string>)
      ensures index == Index(Contents())
    {
      index := map[];
      var view := store.FindNodesByLabel("Metric");
      for i := 0 to |view|
        invariant index == AliasIndex(view[..i])
      {
        index := IndexAliases(index, AliasesOf(view[i].cell), MetricKeyOf(view[i]));
        assert view[..i + 1][..i] == view[..i];
      }
      assert view[..|view|] == view;
    }

    method MetricTerms() returns (terms: seq<TermEntry>)
      ensures terms == TermsByMetric(Contents())
    {
      terms := [];
      var view := store.FindNodesByLabel("Metric");
      for i := 0 to |view|
        invariant terms == TermTable(view[..i])
      {
        assert view[..i + 1][..i] == view[..i];
        terms := PutEntry(terms, TermEntry(MetricKeyOf(view[i]), TermsOf(view[i])));
      }
      assert view[..|view|] == view;
    }

    method CurrentAliases(metricKey: string) returns (current: seq<string>)
      ensures current == StoredAliases(Contents(), metricKey)
    {
      var node := store.GetNode(Metric(metricKey));
      current := match node case Some(cell) => AliasesOf(cell) case None => [];
    }

    method AddMetricAlias(metricKey: string, alias: string)
      modifies store
      ensures History() == Record(old(History()), LearnWrite(old(Contents()), metricKey, alias))
    {
      var current := CurrentAliases(metricKey);
      if alias !in current {
        current := current + [alias];
      }
      store.UpsertNode(Metric(metricKey), AliasProps(current), {});
    }

    method ResolveColumn(system: string, table: string, name: string) returns (view: Option<ColumnView>)
      ensures view == ResolvedColumn(Contents(), system, table, name)
    {
      var col := store.GetNode(Column(system, table, name));
      if col.None? { return None; }
      var metrics := [];
      var measured := store.FindOutNeighbors(Column(system, table, name), "MEASURES");
      for i := 0 to |measured|
        invariant metrics == Hits(Contents(), measured[..i])
      {
        var metric := measured[i].node;
        var found := store.FindOutNeighbors(Metric(MetricKeyOf(metric)), "APPLIES_TO");
        metrics := metrics + [MetricHit(metric, NodesOf(found))];
      }
      assert measured[..|measured|] == measured;
      view := Some(ColumnView(col.value, metrics));
    }
  }
}
