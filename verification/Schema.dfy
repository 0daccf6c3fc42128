/** The write invariant of the ontology, over every run of the client. */
module Schema {
  import opened Wrappers
  import opened PyStrings
  import opened Graphs
  import opened GraphLaws
  import opened Client
  import opened Ir
  import opened Resolvers
  import opened Pipeline
  import opened LoadLaws

  /** Its base label, and for an Entity also labels a loaded pack allow-listed. */
  predicate LawfulLabels(allow: Allow, n: NodeId, labels: set<string>) {
    && n.Label() in labels
    && labels - {n.Label()} <= if n.Entity? then allow.subtypes else {}
  }

  /** A spine signature, or a role-carrying edge between entities of a permitted type. */
  predicate LawfulEdge(allow: Allow, e: EdgeId) {
    || SpineEdge(e)
    || (e.src.Entity? && e.dst.Entity? && e.role.Some? && (e.rel == RELATED_TO || e.rel in allow.edgeTypes))
  }

  /** Provenance is complete, and the role in the identity is the role stored. */
  predicate LawfulProps(e: EdgeId, props: Props) {
    && {"source_ref", "as_of", "created_by"} <= props.Keys
    && (e.role.Some? ==> "role" in props && props["role"] == Text(e.role.value))
  }

  /** Absent values are never stored. */
  predicate Sparse(props: Props) { forall k :: k in props ==> props[k] != Null }

  predicate LawfulCell(allow: Allow, r: Ref, cell: Cell) {
    match r
    case NodeRef(n) => LawfulLabels(allow, n, cell.labels) && Sparse(cell.props)
    case EdgeRef(e) => LawfulEdge(allow, e) && LawfulProps(e, cell.props)
  }

  ghost predicate Lawful(allow: Allow, g: Graph) {
    forall r :: Present(g, r) ==> LawfulCell(allow, r, At(g, r))
  }

  /** What a write may do. */
  predicate LawfulWrite(allow: Allow, w: Write) {
    match w.ref
    case NodeRef(n) => w.delta.labels <= (if n.Entity? then allow.subtypes else {}) && Sparse(w.delta.props)
    case EdgeRef(e) =>
      LawfulEdge(allow, e) && {"source_ref", "as_of", "created_by"} <= w.delta.props.Keys && "role" !in w.delta.props
  }

  predicate Wider(a: Allow, b: Allow) { a.subtypes <= b.subtypes && a.edgeTypes <= b.edgeTypes }

  /** A lawful write on what is lawful, or not yet there, leaves it lawful. */
  lemma LawfulMerge(allow: Allow, w: Write, base: Cell)
    requires LawfulWrite(allow, w) && (base == Fresh(w.ref) || LawfulCell(allow, w.ref, base))
    ensures LawfulCell(allow, w.ref, Merge(base, w.delta))
  {
    match w.ref
    case NodeRef(n) => assert Sparse(n.KeyProps());
    case EdgeRef(e) =>
  }

  lemma LawfulStep(allow: Allow, g: Graph, w: Write)
    requires Lawful(allow, g) && LawfulWrite(allow, w)
    ensures Lawful(allow, Apply(g, w))
  {
    forall r | Present(Apply(g, w), r) ensures LawfulCell(allow, r, At(Apply(g, w), r)) {
      FindAfter(g, w, r);
      assert Present(g, r) ==> LawfulCell(allow, r, At(g, r));
      if w.ref == r {
        LawfulMerge(allow, w, At(g, r));
      } else {
        assert At(Apply(g, w), r) == At(g, r);
      }
    }
  }

  lemma {:induction false} LawfulRun(allow: Allow, g: Graph, ws: seq<Write>)
    requires Lawful(allow, g) && forall w :: w in ws ==> LawfulWrite(allow, w)
    ensures Lawful(allow, ApplyAll(g, ws))
  {
    if ws != [] {
      var init, w := ws[..|ws| - 1], ws[|ws| - 1];
      assert w in ws && forall v :: v in init ==> v in ws;
      LawfulRun(allow, g, init);
      assert ApplyAll(g, ws) == Apply(ApplyAll(g, init), w) by { ApplyAllLast(g, ws); }
      LawfulStep(allow, ApplyAll(g, init), w);
    }
  }

  /** Every call the client lets through makes a lawful write. */
  lemma AllowedIsLawful(allow: Allow, op: Op)
    requires Allowed(allow, op)
    ensures LawfulWrite(allow, Effect(op))
  {
  }

  /** The spine signatures are exactly what the seven link methods produce. */
  lemma SpineIsLinks(e: EdgeId)
    ensures SpineEdge(e) <==>
            match (e.src, e.dst)
            case (Column(s, t, n), Metric(k)) => e == Measures(s, t, n, k)
            case (Metric(k), Entity(uid)) => e == AppliesTo(k, uid)
            case (Metric(k), Document(uri)) => e == DefinedIn(k, uri)
            case (Metric(k), Benchmark(b)) => e == BenchmarkedAgainst(k, b)
            case (Metric(k), Metric(source)) => e == ComputedFrom(k, source)
            case (Document(uri), Entity(uid)) => e == Describes(uri, uid)
            case (Party(p), Entity(uid)) => e.role.Some? && e == HasRole(p, uid, e.role.value)
            case _ => false
  {
  }

  /** Relating two entities either stores an edge with its role and its own provenance, or,
      exactly when no pack permits the type, changes nothing. */
  lemma RelateOutcome(allow: Allow, g: Graph, s: string, o: string, role: string, prov: EdgeProvenance, relType: string)
    ensures var op := RelateEntities(s, o, role, prov, relType);
            var after, e := Perform(allow, g, op), EdgeId(relType, Entity(s), Entity(o), Some(role));
            if relType == "RELATED_TO" || relType in allow.edgeTypes then
              && e in after.edges.cells
              && ProvenanceProps(prov).Items <= after.edges.cells[e].props.Items
              && (Lawful(allow, g) ==>
                    "role" in after.edges.cells[e].props && after.edges.cells[e].props["role"] == Text(role))
              && after.nodes == g.nodes
            else after == g
  {
    var e, stamp := Related(relType, s, o, role), Cell({}, ProvenanceProps(prov));
    assert Effect(RelateEntities(s, o, role, prov, relType)) == Write(EdgeRef(e), stamp);
    FindAfter(g, Write(EdgeRef(e), stamp), EdgeRef(e));
    MergeKeepsItems(At(g, EdgeRef(e)), stamp);
    if Lawful(allow, g) && Present(g, EdgeRef(e)) { assert LawfulCell(allow, EdgeRef(e), At(g, EdgeRef(e))); }
  }

  lemma MergeKeepsItems(base: Cell, delta: Cell)
    ensures delta.props.Items <= Merge(base, delta).props.Items
  {
    forall item | item in delta.props.Items ensures item in Merge(base, delta).props.Items {
      assert item.0 in Merge(base, delta).props;
    }
  }

  // ---- Loads -----------------------------------------------------------------------------

  ghost predicate AllLawful(allow: Allow, ws: seq<Write>) { forall w :: w in ws ==> LawfulWrite(allow, w) }

  lemma {:induction false} GatherLawful<T>(allow: Allow, f: T -> seq<Write>, xs: seq<T>)
    requires forall x :: x in xs ==> AllLawful(allow, f(x))
    ensures AllLawful(allow, Gather(f, xs))
  {
    if xs != [] {
      assert xs[|xs| - 1] in xs && forall x :: x in xs[..|xs| - 1] ==> x in xs;
      GatherLawful(allow, f, xs[..|xs| - 1]);
    }
  }

  lemma DocumentsLawful(allow: Allow, prov: EdgeProvenance, documents: seq<ObservedDocument>)
    ensures AllLawful(allow, Gather(DocumentWriter(prov), documents))
  {
    forall d | d in documents ensures AllLawful(allow, DocumentWriter(prov)(d)) {
      GatherLawful(allow, DescribesWriter(d.uri, prov), d.describes);
      GatherLawful(allow, DefinesWriter(d.uri, prov), d.defines);
    }
    GatherLawful(allow, DocumentWriter(prov), documents);
  }

  lemma ColumnsLawful(allow: Allow, columns: seq<ObservedColumn>)
    ensures AllLawful(allow, Gather(ColumnWriter(), columns))
  {
    GatherLawful(allow, ColumnWriter(), columns);
  }

  lemma EntitiesLawful(allow: Allow, entities: seq<ObservedEntity>)
    ensures AllLawful(allow, Gather(EntityWriter(allow), entities))
  {
    forall e | e in entities ensures AllLawful(allow, EntityWriter(allow)(e)) {
      ColumnsLawful(allow, e.columns);
    }
    GatherLawful(allow, EntityWriter(allow), entities);
  }

  lemma RelationsLawful(allow: Allow, prov: EdgeProvenance, relations: seq<ObservedRelation>)
    requires forall r :: r in relations ==> Admits(allow, r)
    ensures AllLawful(allow, Gather(RelationWriter(prov), relations))
  {
    GatherLawful(allow, RelationWriter(prov), relations);
  }

  lemma LinksLawful(allow: Allow, index: map<string, string>, owners: map<ColumnKey, string>, prov: EdgeProvenance,
                    columns: seq<ObservedColumn>)
    ensures AllLawful(allow, Gather(LinkWriter(index, owners, prov), columns))
  {
    GatherLawful(allow, LinkWriter(index, owners, prov), columns);
  }

  /** A load writes nothing unlawful, even one that a rejected relation ends. */
  lemma LoadIsLawful(allow: Allow, g: Graph, b: ParsedBundle)
    requires Lawful(allow, g)
    ensures Lawful(allow, Loaded(allow, g, b))
  {
    var ws := LoadWrites(allow, Index(g), b);
    DocumentsLawful(allow, ProvOf(b), b.documents);
    ColumnsLawful(allow, b.columns);
    EntitiesLawful(allow, b.entities);
    RelationsLawful(allow, ProvOf(b), b.relations[..AdmittedCount(allow, b.relations)]);
    LinksLawful(allow, Index(g), Owners(b.entities), ProvOf(b), b.IterColumns());
    LawfulRun(allow, g, ws);
  }

  // ---- Whole runs --------------------------------------------------------------------------

  datatype Call =
    | Register(subtypes: set<string>, edgeTypes: set<string>)
    | Attempt(op: Op)
    | Teach(metricKey: string, alias: string)
    | Accept(column: ObservedColumn, metricKey: string, prov: EdgeProvenance)
    | Ingest(bundle: ParsedBundle)

  datatype ClientState = ClientState(allow: Allow, graph: Graph)

  function After(s: ClientState, c: Call): ClientState {
    match c
    case Register(subtypes, edgeTypes) =>
      s.(allow := Allow(s.allow.subtypes + subtypes, s.allow.edgeTypes + edgeTypes))
    case Attempt(op) => s.(graph := Perform(s.allow, s.graph, op))
    case Teach(k, alias) => s.(graph := LearnAlias(s.graph, k, alias))
    case Accept(c, k, prov) => s.(graph := Confirmed(s.graph, c, k, prov))
    case Ingest(b) => s.(graph := Loaded(s.allow, s.graph, b))
  }

  function AfterAll(s: ClientState, calls: seq<Call>): ClientState {
    if calls == [] then s else After(AfterAll(s, calls[..|calls| - 1]), calls[|calls| - 1])
  }

  lemma WiderIsLawful(a: Allow, b: Allow, g: Graph)
    requires Lawful(a, g) && Wider(a, b)
    ensures Lawful(b, g)
  {
    forall r | Present(g, r) ensures LawfulCell(b, r, At(g, r)) {
      assert LawfulCell(a, r, At(g, r));
    }
  }

  lemma CallIsLawful(s: ClientState, c: Call)
    requires Lawful(s.allow, s.graph)
    ensures Lawful(After(s, c).allow, After(s, c).graph) && Wider(s.allow, After(s, c).allow)
  {
    match c
    case Register(_, _) => WiderIsLawful(s.allow, After(s, c).allow, s.graph);
    case Attempt(op) =>
      if Allowed(s.allow, op) {
        AllowedIsLawful(s.allow, op);
        LawfulStep(s.allow, s.graph, Effect(op));
      }
    case Teach(k, alias) => TeachIsLawful(s.allow, s.graph, k, alias);
    case Accept(col, k, prov) => ConfirmIsLawful(s.allow, s.graph, col, k, prov);
    case Ingest(b) => LoadIsLawful(s.allow, s.graph, b);
  }

  lemma LinkIsLawful(allow: Allow, g: Graph, c: ObservedColumn, k: string, prov: EdgeProvenance)
    requires Lawful(allow, g)
    ensures Lawful(allow, LinkedTo(g, c, k, prov))
  {
    var op := Link(Measures(c.system, c.table, c.name, k), prov);
    AllowedIsLawful(allow, op);
    LawfulStep(allow, g, Effect(op));
  }

  lemma TeachIsLawful(allow: Allow, g: Graph, k: string, alias: string)
    requires Lawful(allow, g)
    ensures Lawful(allow, LearnAlias(g, k, alias))
  {
    LawfulStep(allow, g, Write(NodeRef(Metric(k)), TaughtDelta(g, k, alias)));
  }

  lemma ConfirmIsLawful(allow: Allow, g: Graph, c: ObservedColumn, k: string, prov: EdgeProvenance)
    requires Lawful(allow, g)
    ensures Lawful(allow, Confirmed(g, c, k, prov))
  {
    LinkIsLawful(allow, g, c, k, prov);
    TeachIsLawful(allow, LinkedTo(g, c, k, prov), k, Casefold(c.name));
  }

  /** Schema invariant. Whatever is registered, written, taught, confirmed and loaded, in any
      order and with any number of rejected calls: every node carries its base label and, for
      an Entity only, labels some pack allow-listed; every edge has a spine signature or joins
      two entities with a permitted type; every edge carries its provenance. */
  lemma {:induction false} SchemaInvariant(calls: seq<Call>)
    ensures var s := AfterAll(ClientState(Allow({}, {}), Empty), calls);
            Lawful(s.allow, s.graph)
  {
    if calls != [] {
      SchemaInvariant(calls[..|calls| - 1]);
      CallIsLawful(AfterAll(ClientState(Allow({}, {}), Empty), calls[..|calls| - 1]), calls[|calls| - 1]);
    }
  }

  /** In particular, after any run: an entity's labels are its base label and allow-listed ones, any
      other node has its base label alone, and every edge carries its source, time and creator. */
  lemma InvariantSpelled(calls: seq<Call>, n: NodeId, e: EdgeId)
    ensures var s := AfterAll(ClientState(Allow({}, {}), Empty), calls);
            && (n in s.graph.nodes.cells && n.Entity? ==>
                  {"Entity"} <= s.graph.nodes.cells[n].labels <= {"Entity"} + s.allow.subtypes)
            && (n in s.graph.nodes.cells && !n.Entity? ==> s.graph.nodes.cells[n].labels == {n.Label()})
            && (e in s.graph.edges.cells ==>
                  {"source_ref", "as_of", "created_by"} <= s.graph.edges.cells[e].props.Keys)
            && (e in s.graph.edges.cells && e.src.Entity? ==>
                  e.dst.Entity? && e.role.Some? && (e.rel == "RELATED_TO" || e.rel in s.allow.edgeTypes))
  {
    var s := AfterAll(ClientState(Allow({}, {}), Empty), calls);
    SchemaInvariant(calls);
    assert Present(s.graph, NodeRef(n)) ==> LawfulCell(s.allow, NodeRef(n), At(s.graph, NodeRef(n)));
    assert Present(s.graph, EdgeRef(e)) ==> LawfulCell(s.allow, EdgeRef(e), At(s.graph, EdgeRef(e)));
  }
}
