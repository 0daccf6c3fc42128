/** What each write call leaves in the graph, as a reader finds it: by property name, and by
    following an edge from its source. */
module WriteLaws {
  import opened Wrappers
  import opened Graphs
  import opened GraphLaws
  import opened Stores
  import opened Client

  /** The stored property `p` of a node, if it has one. */
  function Read(g: Graph, n: NodeId, p: string): Option<Value> {
    if n in g.nodes.cells && p in g.nodes.cells[n].props then Some(g.nodes.cells[n].props[p]) else None
  }

  /** An optional value that is given replaces what was stored; one that is not leaves it. */
  ghost predicate SetTo(g: Graph, after: Graph, n: NodeId, p: string, given: Option<string>) {
    Read(after, n, p) == if given.Some? then Some(Text(given.value)) else Kept(g, n, p)
  }

  /** What a node keeps of a property: the stored value, or its key if the node is new. */
  function Kept(g: Graph, n: NodeId, p: string): Option<Value> {
    if n in g.nodes.cells then Read(g, n, p)
    else if p in n.KeyProps() then Some(n.KeyProps()[p]) else None
  }

  lemma ReadAfter(g: Graph, n: NodeId, labels: set<string>, props: Props, p: string)
    ensures var after := Apply(g, Write(NodeRef(n), Cell(labels, Clean(props))));
            Read(after, n, p) == if p in props && props[p] != Null then Some(props[p]) else Kept(g, n, p)
  {
    CleanExactly(props, p);
    UpsertedNode(g, n, Cell(labels, Clean(props)), p);
  }

  // ---- Nodes -------------------------------------------------------------------------------

  /** Attributes are stored under their own names, except absent ones, which change nothing. */
  ghost predicate Attributed(g: Graph, after: Graph, n: NodeId, attributes: Props) {
    forall p :: Read(after, n, p)
      == if p in attributes && attributes[p] != Null then Some(attributes[p]) else Kept(g, n, p)
  }

  lemma AttributesStored(g: Graph, n: NodeId, labels: set<string>, attributes: Props)
    ensures Attributed(g, Apply(g, Write(NodeRef(n), Cell(labels, Clean(attributes)))), n, attributes)
  {
    forall p { ReadAfter(g, n, labels, attributes, p); }
  }

  /** An entity with a subtype outside the allow-list is not written at all; otherwise it has its
      attributes, and the subtype is a second label. */
  lemma EntityTells(allow: Allow, g: Graph, uid: string, subtype: Option<string>, attributes: Props)
    ensures var after, n := Perform(allow, g, UpsertEntity(uid, subtype, attributes)), Entity(uid);
            if subtype.Some? && subtype.value !in allow.subtypes then after == g else
              && n in after.nodes.cells
              && Attributed(g, after, n, attributes)
              && after.nodes.cells[n].labels
                 == (if n in g.nodes.cells then g.nodes.cells[n].labels else {"Entity"})
                    + (if subtype.Some? && subtype.value != "" then {subtype.value} else {})
  {
    var extra := if subtype.Some? && subtype.value != "" then {subtype.value} else {};
    AttributesStored(g, Entity(uid), extra, attributes);
    UpsertedNode(g, Entity(uid), Cell(extra, Clean(attributes)), "");
  }

  lemma BenchmarkTells(allow: Allow, g: Graph, key: string, attributes: Props)
    ensures Attributed(g, Perform(allow, g, UpsertBenchmark(key, attributes)), Benchmark(key), attributes)
  {
    AttributesStored(g, Benchmark(key), {}, attributes);
  }

  lemma PartyTells(allow: Allow, g: Graph, uid: string, attributes: Props)
    ensures Attributed(g, Perform(allow, g, UpsertParty(uid, attributes)), Party(uid), attributes)
  {
    AttributesStored(g, Party(uid), {}, attributes);
  }

  /** A metric has its free attributes, which come before the five fields of the same name, and
      its fields under their own names. */
  lemma MetricTells(allow: Allow, g: Graph, key: string, f: MetricFields, attributes: Props, p: string)
    ensures var after, n := Perform(allow, g, UpsertMetric(key, f, attributes)), Metric(key);
            if p in attributes then Read(after, n, p) == if attributes[p] != Null then Some(attributes[p])
              else Kept(g, n, p)
            else
              && (p == "formula" ==> SetTo(g, after, n, p, f.formula))
              && (p == "unit" ==> SetTo(g, after, n, p, f.unit))
              && (p == "numerator_def" ==> SetTo(g, after, n, p, f.numeratorDef))
              && (p == "denominator_def" ==> SetTo(g, after, n, p, f.denominatorDef))
              && (p == "provenance" ==> SetTo(g, after, n, p, f.provenance))
              && (p !in {"formula", "unit", "numerator_def", "denominator_def", "provenance"} ==>
                    Read(after, n, p) == Kept(g, n, p))
  {
    ReadAfter(g, Metric(key), {}, MetricProps(f, attributes), p);
  }

  lemma ColumnTells(allow: Allow, g: Graph, system: string, table: string, name: string, dtype: Option<string>,
                    samples: seq<string>, hasDictionary: bool)
    ensures var after := Perform(allow, g, UpsertColumn(system, table, name, dtype, samples, hasDictionary));
            var n := Column(system, table, name);
            && SetTo(g, after, n, "dtype", dtype)
            && Read(after, n, "sample_values") == Some(Texts(samples))
            && Read(after, n, "has_dictionary") == Some(Flag(hasDictionary))
            && (n !in g.nodes.cells ==> Read(after, n, "name") == Some(Text(name)))
  {
    var n, props := Column(system, table, name), ColumnProps(dtype, samples, hasDictionary);
    ReadAfter(g, n, {}, props, "dtype");
    ReadAfter(g, n, {}, props, "sample_values");
    ReadAfter(g, n, {}, props, "has_dictionary");
    ReadAfter(g, n, {}, props, "name");
    IdentityStored(n);
  }

  lemma DocumentTells(allow: Allow, g: Graph, uri: string, title: Option<string>, text: string, asOf: Option<string>)
    ensures var after, n := Perform(allow, g, UpsertDocument(uri, title, text, asOf)), Document(uri);
            && SetTo(g, after, n, "title", title)
            && Read(after, n, "text") == Some(Text(text))
            && SetTo(g, after, n, "as_of", asOf)
  {
    var n, props := Document(uri), DocumentProps(title, text, asOf);
    ReadAfter(g, n, {}, props, "title");
    ReadAfter(g, n, {}, props, "text");
    ReadAfter(g, n, {}, props, "as_of");
  }

  /** The aliases stored under a metric, as a reader of the list finds them. */
  function ReadAliases(g: Graph, key: string): seq<string> {
    match Read(g, Metric(key), "aliases")
    case Some(Texts(items)) => items
    case Some(Text(t)) => seq(|t|, i requires 0 <= i < |t| => [t[i]])
    case _ => []
  }

  /** A lesson appends the alias to the stored list unless it is there, and touches nothing else. */
  lemma LessonTells(g: Graph, key: string, alias: string, p: string)
    ensures var after, before := LearnAlias(g, key, alias), ReadAliases(g, key);
            && Read(after, Metric(key), "aliases") == Some(Texts(if alias in before then before else before + [alias]))
            && (p != "aliases" ==> Read(after, Metric(key), p) == Kept(g, Metric(key), p))
            && after.edges == g.edges
            && forall n :: n != Metric(key) ==> Find(after, NodeRef(n)) == Find(g, NodeRef(n))
  {
    assert TaughtDelta(g, key, alias).props
      == AliasProps(if alias in ReadAliases(g, key) then ReadAliases(g, key) else ReadAliases(g, key) + [alias]) by {
      StoredIsRead(g, key);
    }
    UpsertReads(g, Metric(key), TaughtDelta(g, key, alias), "aliases");
    UpsertReads(g, Metric(key), TaughtDelta(g, key, alias), p);
    UpsertedElsewhere(g, LearnWrite(g, key, alias));
  }

  lemma StoredIsRead(g: Graph, key: string)
    ensures StoredAliases(g, key) == ReadAliases(g, key)
  {
  }

  lemma UpsertReads(g: Graph, n: NodeId, delta: Cell, p: string)
    ensures Read(Apply(g, Write(NodeRef(n), delta)), n, p)
         == if p in delta.props then Some(delta.props[p]) else Kept(g, n, p)
  {
    UpsertedNode(g, n, delta, p);
  }

  // ---- Edges -------------------------------------------------------------------------------

  /** The edge is stored with the provenance of the call, and leads from its source to its target
      as soon as that is a stored node. */
  ghost predicate Leads(after: Graph, src: NodeId, rel: string, dst: NodeId, role: Option<string>,
                        prov: EdgeProvenance) {
    var e := EdgeId(rel, src, dst, role);
    && e in after.edges.cells
    && Stamped(after.edges.cells[e].props, prov)
    && (dst in after.nodes.cells ==>
          Neighbor(NodeView(dst, after.nodes.cells[dst]), after.edges.cells[e]) in OutNeighbors(after, src, rel))
  }

  predicate Stamped(props: Props, prov: EdgeProvenance) {
    && {"source_ref", "as_of", "created_by"} <= props.Keys
    && props["source_ref"] == Text(prov.sourceRef) && props["as_of"] == Text(prov.asOf)
    && props["created_by"] == Text(prov.createdBy)
  }

  lemma StoredLeads(after: Graph, e: EdgeId, prov: EdgeProvenance)
    requires e in after.edges.cells && Stamped(after.edges.cells[e].props, prov)
    ensures Leads(after, e.src, e.rel, e.dst, e.role, prov)
  {
    assert e == EdgeId(e.rel, e.src, e.dst, e.role);
    if e.dst in after.nodes.cells {
      var n := Neighbor(NodeView(e.dst, after.nodes.cells[e.dst]), after.edges.cells[e]);
      OutNeighborsMembers(after, e.src, e.rel, n);
    }
  }

  function WithEdge(g: Graph, e: EdgeId, prov: EdgeProvenance): Graph { Apply(g, EdgeWrite(e, prov)) }

  lemma EdgeLeads(g: Graph, e: EdgeId, prov: EdgeProvenance)
    ensures Leads(WithEdge(g, e, prov), e.src, e.rel, e.dst, e.role, prov)
  {
    UpsertedEdge(g, e, Cell({}, ProvenanceProps(prov)), "source_ref");
    UpsertedEdge(g, e, Cell({}, ProvenanceProps(prov)), "as_of");
    UpsertedEdge(g, e, Cell({}, ProvenanceProps(prov)), "created_by");
    StoredLeads(WithEdge(g, e, prov), e, prov);
  }

  /** The seven links, each from its own source to its own target. */
  lemma LinksLead(g: Graph, metric: string, other: string, uid: string, uri: string, benchmark: string, party: string,
                  role: string, c: NodeId, p: EdgeProvenance)
    requires c.Column?
    ensures Leads(WithEdge(g, Measures(c.system, c.table, c.name, metric), p), c, "MEASURES", Metric(metric), None, p)
    ensures Leads(WithEdge(g, AppliesTo(metric, uid), p), Metric(metric), "APPLIES_TO", Entity(uid), None, p)
    ensures Leads(WithEdge(g, DefinedIn(metric, uri), p), Metric(metric), "DEFINED_IN", Document(uri), None, p)
    ensures Leads(WithEdge(g, BenchmarkedAgainst(metric, benchmark), p), Metric(metric), "BENCHMARKED_AGAINST",
                  Benchmark(benchmark), None, p)
    ensures Leads(WithEdge(g, ComputedFrom(metric, other), p), Metric(metric), "COMPUTED_FROM", Metric(other), None, p)
    ensures Leads(WithEdge(g, Describes(uri, uid), p), Document(uri), "DESCRIBES", Entity(uid), None, p)
    ensures Leads(WithEdge(g, HasRole(party, uid, role), p), Party(party), "HAS_ROLE", Entity(uid), Some(role), p)
  {
    EdgeLeads(g, Measures(c.system, c.table, c.name, metric), p);
    EdgeLeads(g, AppliesTo(metric, uid), p);
    EdgeLeads(g, DefinedIn(metric, uri), p);
    EdgeLeads(g, BenchmarkedAgainst(metric, benchmark), p);
    EdgeLeads(g, ComputedFrom(metric, other), p);
    EdgeLeads(g, Describes(uri, uid), p);
    EdgeLeads(g, HasRole(party, uid, role), p);
  }

  /** Relating leads from the subject to the object, under the given type and role, or, exactly
      when the type is not permitted, changes nothing. */
  lemma RelationLeads(allow: Allow, g: Graph, subject: string, object_: string, role: string, prov: EdgeProvenance,
                      relType: string)
    ensures var after := Perform(allow, g, RelateEntities(subject, object_, role, prov, relType));
            if relType == "RELATED_TO" || relType in allow.edgeTypes
            then Leads(after, Entity(subject), relType, Entity(object_), Some(role), prov) && after.nodes == g.nodes
            else after == g
  {
    EdgeLeads(g, Related(relType, subject, object_, role), prov);
  }

  // ---- The column read path ----------------------------------------------------------------

  /** Reading a column finds it exactly when it is stored, with its own cell, a hit for exactly
      each metric it measures, and under each hit exactly the entities that metric applies to. */
  lemma ColumnReadExactly(g: Graph, system: string, table: string, name: string, v: NodeView)
    ensures var n, found := Column(system, table, name), ResolvedColumn(g, system, table, name);
            && (found.Some? <==> n in g.nodes.cells)
            && (found.Some? ==>
                  && found.value.column == g.nodes.cells[n]
                  && ((exists hit :: hit in found.value.metrics && hit.metric == v) <==> Linked(g, n, "MEASURES", v)))
  {
    if ResolvedColumn(g, system, table, name).Some? {
      HitsExactly(g, OutNeighbors(g, Column(system, table, name), "MEASURES"), v);
    }
    LinkedExactly(g, Column(system, table, name), "MEASURES", v);
  }

  /** A stored edge of that type leads from the source to the node as it is stored. */
  predicate Linked(g: Graph, src: NodeId, rel: string, v: NodeView) {
    && v.id in g.nodes.cells && g.nodes.cells[v.id] == v.cell
    && exists e :: e in g.edges.cells && e.rel == rel && e.src == src && e.dst == v.id
  }

  lemma LinkedExactly(g: Graph, src: NodeId, rel: string, v: NodeView)
    ensures v in NodesOf(OutNeighbors(g, src, rel)) <==> Linked(g, src, rel, v)
  {
    var found := OutNeighbors(g, src, rel);
    if i :| 0 <= i < |found| && NodesOf(found)[i] == v {
      OutNeighborsMembers(g, src, rel, found[i]);
    }
    if e :| Linked(g, src, rel, v) && e in g.edges.cells && e.rel == rel && e.src == src && e.dst == v.id {
      OutNeighborsMembers(g, src, rel, Neighbor(v, g.edges.cells[e]));
      var i :| 0 <= i < |found| && found[i] == Neighbor(v, g.edges.cells[e]);
      assert NodesOf(found)[i] == v;
    }
  }

  lemma HitsExactly(g: Graph, measured: seq<Neighbor>, v: NodeView)
    ensures (exists hit :: hit in Hits(g, measured) && hit.metric == v) <==> v in NodesOf(measured)
  {
    if i :| 0 <= i < |measured| && NodesOf(measured)[i] == v { assert Hits(g, measured)[i].metric == v; }
    if i :| 0 <= i < |measured| && Hits(g, measured)[i].metric == v { assert NodesOf(measured)[i] == v; }
  }

  /** And under each hit. */
  lemma HitReadExactly(g: Graph, system: string, table: string, name: string, hit: MetricHit, v: NodeView)
    requires Keyed(g) && ResolvedColumn(g, system, table, name).Some?
    requires hit in ResolvedColumn(g, system, table, name).value.metrics
    ensures hit.metric.id.Metric? ==> (v in hit.appliesTo <==> Linked(g, hit.metric.id, "APPLIES_TO", v))
  {
    var measured := OutNeighbors(g, Column(system, table, name), "MEASURES");
    var i :| 0 <= i < |measured| && Hits(g, measured)[i] == hit;
    OutNeighborsMembers(g, Column(system, table, name), "MEASURES", measured[i]);
    if hit.metric.id.Metric? { LinkedExactly(g, hit.metric.id, "APPLIES_TO", v); }
  }
}
