/** Loading one bundle: the only place where observed records become graph writes. Given the
    allow-lists and the alias index, a bundle compiles to a fixed write sequence. */
module Pipeline {
  import opened Wrappers
  import opened PyStrings
  import opened Graphs
  import opened GraphLaws
  import opened Stores
  import opened Client
  import opened Ir
  import opened Resolvers

  function ProvOf(b: ParsedBundle): EdgeProvenance {
    EdgeProvenance(b.provenance.sourceRef, b.provenance.fetchedAt, b.provenance.connectorVersion)
  }

  /** The writes of each element in turn. */
  function Gather<T>(f: T -> seq<Write>, xs: seq<T>): seq<Write> {
    if xs == [] then [] else Gather(f, xs[..|xs| - 1]) + f(xs[|xs| - 1])
  }

  function DescribesWriter(uri: string, prov: EdgeProvenance): string -> seq<Write> {
    (uid: string) => [Effect(Link(Describes(uri, uid), prov))]
  }

  function DefinesWriter(uri: string, prov: EdgeProvenance): string -> seq<Write> {
    (metricKey: string) => [Effect(Link(DefinedIn(metricKey, uri), prov))]
  }

  function DocumentWriter(prov: EdgeProvenance): ObservedDocument -> seq<Write> {
    (d: ObservedDocument) =>
      [Effect(UpsertDocument(d.uri, d.title, d.text, d.asOf))]
        + Gather(DescribesWriter(d.uri, prov), d.describes)
        + Gather(DefinesWriter(d.uri, prov), d.defines)
  }

  function ColumnWriter(): ObservedColumn -> seq<Write> {
    (c: ObservedColumn) => [Effect(UpsertColumn(c.system, c.table, c.name, c.dtype, c.sampleValues, c.hasDictionary))]
  }

  /** The first candidate label that a loaded pack allow-lists. */
  function PickSubtype(allowed: set<string>, candidates: seq<string>): (r: Option<string>)
    ensures r.Some? ==> exists i :: 0 <= i < |candidates| && candidates[i] == r.value && r.value in allowed
                                    && forall j :: 0 <= j < i ==> candidates[j] !in allowed
    ensures r.None? <==> forall c :: c in candidates ==> c !in allowed
  {
    if candidates == [] then None
    else if candidates[0] in allowed then Some(candidates[0])
    else PickSubtype(allowed, candidates[1..])
  }

  function EntityWriter(allow: Allow): ObservedEntity -> seq<Write> {
    (e: ObservedEntity) =>
      [Effect(UpsertEntity(e.uid, PickSubtype(allow.subtypes, e.candidateLabels), e.attributes))]
        + Gather(ColumnWriter(), e.columns)
  }

  /** `rel.rel_type or RELATED_TO` */
  function RelTypeOf(r: ObservedRelation): string {
    if r.relType.Some? && r.relType.value != "" then r.relType.value else RELATED_TO
  }

  predicate Admits(allow: Allow, r: ObservedRelation) {
    RelTypeOf(r) == RELATED_TO || RelTypeOf(r) in allow.edgeTypes
  }

  function RelationWriter(prov: EdgeProvenance): ObservedRelation -> seq<Write> {
    (r: ObservedRelation) => [Effect(RelateEntities(r.subjectUid, r.objectUid, r.role, prov, RelTypeOf(r)))]
  }

  /** How many relations precede the first rejected one. */
  function AdmittedCount(allow: Allow, rels: seq<ObservedRelation>): (n: nat)
    ensures n <= |rels|
    ensures forall i :: 0 <= i < n ==> Admits(allow, rels[i])
    ensures n < |rels| ==> !Admits(allow, rels[n])
  {
    if rels == [] || !Admits(allow, rels[0]) then 0 else 1 + AdmittedCount(allow, rels[1..])
  }

  predicate Admitted(allow: Allow, b: ParsedBundle) {
    forall r :: r in b.relations ==> Admits(allow, r)
  }

  function AddOwners(owners: map<ColumnKey, string>, columns: seq<ObservedColumn>,
                     uid: string): map<ColumnKey, string> {
    if columns == [] then owners else
      AddOwners(owners, columns[..|columns| - 1], uid)[KeyOf(columns[|columns| - 1]) := uid]
  }

  /** The last entity of the bundle that carries each column. */
  function Owners(entities: seq<ObservedEntity>): map<ColumnKey, string> {
    if entities == [] then map[] else
      var e := entities[|entities| - 1];
      AddOwners(Owners(entities[..|entities| - 1]), e.columns, e.uid)
  }

  function LinkWriter(index: map<string, string>, owners: map<ColumnKey, string>,
                      prov: EdgeProvenance): ObservedColumn -> seq<Write> {
    (c: ObservedColumn) =>
      var name := Casefold(c.name);
      if name !in index || index[name] == "" then [] else
        [Effect(Link(Measures(c.system, c.table, c.name, index[name]), prov))]
          + if KeyOf(c) in owners then [Effect(Link(AppliesTo(index[name], owners[KeyOf(c)]), prov))] else []
  }

  /** Everything written before any column is resolved. */
  function RecordWrites(allow: Allow, b: ParsedBundle): seq<Write> {
    Gather(DocumentWriter(ProvOf(b)), b.documents)
      + Gather(ColumnWriter(), b.columns)
      + Gather(EntityWriter(allow), b.entities)
      + Gather(RelationWriter(ProvOf(b)), b.relations[..AdmittedCount(allow, b.relations)])
  }

  function ResolutionWrites(allow: Allow, index: map<string, string>, b: ParsedBundle): seq<Write> {
    if AdmittedCount(allow, b.relations) < |b.relations| then [] else
      Gather(LinkWriter(index, Owners(b.entities), ProvOf(b)), b.IterColumns())
  }

  /** The compiled bundle. */
  function LoadWrites(allow: Allow, index: map<string, string>, b: ParsedBundle): seq<Write> {
    RecordWrites(allow, b) + ResolutionWrites(allow, index, b)
  }

  function Decisions(f: Funnel, g: Graph, columns: seq<ObservedColumn>): seq<Resolution> {
    if columns == [] then [] else
      Decisions(f, g, columns[..|columns| - 1]) + [Decide(f, g, columns[|columns| - 1])]
  }

  function EscalatedOf(rs: seq<Resolution>): seq<Resolution> {
    if rs == [] then [] else
      EscalatedOf(rs[..|rs| - 1]) + if rs[|rs| - 1].tier == Escalated then [rs[|rs| - 1]] else []
  }

  /** What a load appends to the escalation queue: a rejected relation ends it before any column
      is resolved. */
  function Appended(allow: Allow, f: Funnel, g: Graph, b: ParsedBundle): seq<Resolution> {
    if Admitted(allow, b) then EscalatedOf(Decisions(f, g, b.IterColumns())) else []
  }

  // ---- Compilation facts -----------------------------------------------------------------

  lemma {:induction false} GatherSingles<T(!new)>(f: T -> seq<Write>, xs: seq<T>)
    requires forall x :: |f(x)| == 1
    ensures |Gather(f, xs)| == |xs|
    ensures forall i :: 0 <= i < |xs| ==> Gather(f, xs)[i] == f(xs[i])[0]
  {
    if xs != [] {
      var init := xs[..|xs| - 1];
      GatherSingles(f, init);
      assert forall i :: 0 <= i < |init| ==> init[i] == xs[i];
    }
  }

  /** A document is written before its links, and what it describes before what it defines, each in
      the order listed. */
  lemma DocumentInOrder(prov: EdgeProvenance, d: ObservedDocument, i: nat)
    ensures var ws, n := DocumentWriter(prov)(d), |d.describes|;
            && |ws| == 1 + n + |d.defines|
            && ws[0].ref == NodeRef(Document(d.uri))
            && (i < n ==>
                  ws[1 + i].ref == EdgeRef(EdgeId("DESCRIBES", Document(d.uri), Entity(d.describes[i]), None)))
            && (i < |d.defines| ==>
                  ws[1 + n + i].ref == EdgeRef(EdgeId("DEFINED_IN", Metric(d.defines[i]), Document(d.uri), None)))
  {
    GatherSingles(DescribesWriter(d.uri, prov), d.describes);
    GatherSingles(DefinesWriter(d.uri, prov), d.defines);
  }

  /** What a record, as opposed to a resolution, may be written to. */
  predicate RecordRef(r: Ref) {
    match r
    case NodeRef(n) => !n.Metric?
    case EdgeRef(e) => e.src.Document? || e.dst.Document? || (e.src.Entity? && e.dst.Entity?)
  }

  ghost predicate RecordsOnly(ws: seq<Write>) { forall w :: w in ws ==> RecordRef(w.ref) }

  lemma {:induction false} GatherRecords<T>(f: T -> seq<Write>, xs: seq<T>)
    requires forall x :: RecordsOnly(f(x))
    ensures RecordsOnly(Gather(f, xs))
  {
    if xs != [] { GatherRecords(f, xs[..|xs| - 1]); }
  }

  lemma RecordsConcat(vs: seq<Write>, ws: seq<Write>)
    requires RecordsOnly(vs) && RecordsOnly(ws)
    ensures RecordsOnly(vs + ws)
  {
  }

  lemma DocumentRecords(prov: EdgeProvenance, documents: seq<ObservedDocument>)
    ensures RecordsOnly(Gather(DocumentWriter(prov), documents))
  {
    forall d: ObservedDocument ensures RecordsOnly(DocumentWriter(prov)(d)) {
      var head := [Effect(UpsertDocument(d.uri, d.title, d.text, d.asOf))];
      var describes := Gather(DescribesWriter(d.uri, prov), d.describes);
      var defines := Gather(DefinesWriter(d.uri, prov), d.defines);
      GatherRecords(DescribesWriter(d.uri, prov), d.describes);
      GatherRecords(DefinesWriter(d.uri, prov), d.defines);
      RecordsConcat(head, describes);
      RecordsConcat(head + describes, defines);
    }
    GatherRecords(DocumentWriter(prov), documents);
  }

  lemma EntityRecords(allow: Allow, entities: seq<ObservedEntity>)
    ensures RecordsOnly(Gather(EntityWriter(allow), entities))
  {
    forall e: ObservedEntity ensures RecordsOnly(EntityWriter(allow)(e)) {
      GatherRecords(ColumnWriter(), e.columns);
      RecordsConcat([Effect(UpsertEntity(e.uid, PickSubtype(allow.subtypes, e.candidateLabels), e.attributes))],
                    Gather(ColumnWriter(), e.columns));
    }
    GatherRecords(EntityWriter(allow), entities);
  }

  lemma ColumnRecords(columns: seq<ObservedColumn>)
    ensures RecordsOnly(Gather(ColumnWriter(), columns))
  {
    GatherRecords(ColumnWriter(), columns);
  }

  lemma RelationRecords(prov: EdgeProvenance, relations: seq<ObservedRelation>)
    ensures RecordsOnly(Gather(RelationWriter(prov), relations))
  {
    GatherRecords(RelationWriter(prov), relations);
  }

  /** Records go to Document, Column and Entity nodes, and to edges at documents or between
      entities. */
  lemma RecordWritesAreRecords(allow: Allow, b: ParsedBundle)
    ensures RecordsOnly(RecordWrites(allow, b))
  {
    var prov, n := ProvOf(b), AdmittedCount(allow, b.relations);
    var docs, cols := Gather(DocumentWriter(prov), b.documents), Gather(ColumnWriter(), b.columns);
    var ents := Gather(EntityWriter(allow), b.entities);
    var rels := Gather(RelationWriter(prov), b.relations[..n]);
    DocumentRecords(prov, b.documents);
    ColumnRecords(b.columns);
    EntityRecords(allow, b.entities);
    RelationRecords(prov, b.relations[..n]);
    RecordsConcat(docs, cols);
    RecordsConcat(docs + cols, ents);
    RecordsConcat(docs + cols + ents, rels);
  }

  lemma {:induction false} LinksAvoidMetrics(index: map<string, string>, owners: map<ColumnKey, string>,
                                             prov: EdgeProvenance, columns: seq<ObservedColumn>)
    ensures Avoids(Gather(LinkWriter(index, owners, prov), columns), "Metric")
  {
    if columns != [] { LinksAvoidMetrics(index, owners, prov, columns[..|columns| - 1]); }
  }

  lemma RecordsAvoidMetrics(allow: Allow, b: ParsedBundle)
    ensures Avoids(RecordWrites(allow, b), "Metric")
  {
    RecordWritesAreRecords(allow, b);
  }

  /** A load never writes a Metric node. */
  lemma LoadAvoidsMetrics(allow: Allow, index: map<string, string>, b: ParsedBundle)
    ensures Avoids(LoadWrites(allow, index, b), "Metric")
  {
    RecordsAvoidMetrics(allow, b);
    LinksAvoidMetrics(index, Owners(b.entities), ProvOf(b), b.IterColumns());
  }

  /** Hence the whole load, and each of its resolutions, sees the metrics it started with. */
  lemma MetricsKept(g: Graph, ws: seq<Write>)
    requires Avoids(ws, "Metric")
    ensures MetricView(ApplyAll(g, ws)) == MetricView(g)
    ensures Index(ApplyAll(g, ws)) == Index(g)
  {
    NodesByLabelKept(g, ws, "Metric");
  }

  lemma GatherStep<T>(j: Journal, f: T -> seq<Write>, xs: seq<T>, i: nat)
    requires i < |xs|
    ensures RecordAll(j, Gather(f, xs[..i + 1])) == RecordAll(RecordAll(j, Gather(f, xs[..i])), f(xs[i]))
  {
    assert xs[..i + 1][..i] == xs[..i];
    RecordAllConcat(j, Gather(f, xs[..i]), f(xs[i]));
  }

  // ---- Loading the records -----------------------------------------------------------------

  lemma DocumentCompiled(j: Journal, doc: ObservedDocument, prov: EdgeProvenance)
    ensures var described := Gather(DescribesWriter(doc.uri, prov), doc.describes);
            var defined := Gather(DefinesWriter(doc.uri, prov), doc.defines);
            RecordAll(j, DocumentWriter(prov)(doc))
              == RecordAll(RecordAll(Record(j, Effect(UpsertDocument(doc.uri, doc.title, doc.text, doc.asOf))),
                                     described), defined)
  {
    var head := Effect(UpsertDocument(doc.uri, doc.title, doc.text, doc.asOf));
    RecordOne(j, head);
    RecordAllConcat(j, [head], Gather(DescribesWriter(doc.uri, prov), doc.describes));
    RecordAllConcat(j, [head] + Gather(DescribesWriter(doc.uri, prov), doc.describes),
                    Gather(DefinesWriter(doc.uri, prov), doc.defines));
  }

  method LoadDocument(client: GraphClient, doc: ObservedDocument, prov: EdgeProvenance)
    modifies client.store
    ensures client.History() == RecordAll(old(client.History()), DocumentWriter(prov)(doc))
  {
    ghost var start := client.History();
    client.UpsertDocument(doc.uri, doc.title, doc.text, doc.asOf);
    ghost var j0 := client.History();
    for i := 0 to |doc.describes|
      invariant client.History() == RecordAll(j0, Gather(DescribesWriter(doc.uri, prov), doc.describes[..i]))
    {
      GatherStep(j0, DescribesWriter(doc.uri, prov), doc.describes, i);
      RecordOne(client.History(), Effect(Link(Describes(doc.uri, doc.describes[i]), prov)));
      client.LinkDocumentToEntity(doc.uri, doc.describes[i], prov);
    }
    assert doc.describes[..|doc.describes|] == doc.describes;
    ghost var j1 := client.History();
    for i := 0 to |doc.defines|
      invariant client.History() == RecordAll(j1, Gather(DefinesWriter(doc.uri, prov), doc.defines[..i]))
    {
      GatherStep(j1, DefinesWriter(doc.uri, prov), doc.defines, i);
      RecordOne(client.History(), Effect(Link(DefinedIn(doc.defines[i], doc.uri), prov)));
      client.LinkMetricToDocument(doc.defines[i], doc.uri, prov);
    }
    assert doc.defines[..|doc.defines|] == doc.defines;
    DocumentCompiled(start, doc, prov);
  }

  method LoadDocuments(client: GraphClient, documents: seq<ObservedDocument>, prov: EdgeProvenance)
    modifies client.store
    ensures client.History() == RecordAll(old(client.History()), Gather(DocumentWriter(prov), documents))
  {
    ghost var start := client.History();
    for i := 0 to |documents|
      invariant client.History() == RecordAll(start, Gather(DocumentWriter(prov), documents[..i]))
    {
      GatherStep(start, DocumentWriter(prov), documents, i);
      LoadDocument(client, documents[i], prov);
    }
    assert documents[..|documents|] == documents;
  }

  method LoadColumn(client: GraphClient, c: ObservedColumn)
    modifies client.store
    ensures client.History() == RecordAll(old(client.History()), ColumnWriter()(c))
  {
    RecordOne(client.History(), ColumnWriter()(c)[0]);
    client.UpsertColumn(c.system, c.table, c.name, c.dtype, c.sampleValues, c.hasDictionary);
  }

  method LoadColumns(client: GraphClient, columns: seq<ObservedColumn>)
    modifies client.store
    ensures client.History() == RecordAll(old(client.History()), Gather(ColumnWriter(), columns))
  {
    ghost var start := client.History();
    for i := 0 to |columns|
      invariant client.History() == RecordAll(start, Gather(ColumnWriter(), columns[..i]))
    {
      GatherStep(start, ColumnWriter(), columns, i);
      LoadColumn(client, columns[i]);
    }
    assert columns[..|columns|] == columns;
  }

  lemma OwnersStep(owners: map<ColumnKey, string>, columns: seq<ObservedColumn>, uid: string, i: nat)
    requires i < |columns|
    ensures AddOwners(owners, columns[..i + 1], uid) == AddOwners(owners, columns[..i], uid)[KeyOf(columns[i]) := uid]
  {
    assert columns[..i + 1][..i] == columns[..i];
  }

  method LoadOwnedColumns(client: GraphClient, columns: seq<ObservedColumn>, uid: string,
                          owners: map<ColumnKey, string>)
    returns (owners': map<ColumnKey, string>)
    modifies client.store
    ensures client.History() == RecordAll(old(client.History()), Gather(ColumnWriter(), columns))
    ensures owners' == AddOwners(owners, columns, uid)
  {
    ghost var start := client.History();
    owners' := owners;
    for i := 0 to |columns|
      invariant client.History() == RecordAll(start, Gather(ColumnWriter(), columns[..i]))
      invariant owners' == AddOwners(owners, columns[..i], uid)
    {
      GatherStep(start, ColumnWriter(), columns, i);
      OwnersStep(owners, columns, uid, i);
      LoadColumn(client, columns[i]);
      owners' := owners'[KeyOf(columns[i]) := uid];
    }
    assert columns[..|columns|] == columns;
  }

  method LoadEntity(client: GraphClient, ent: ObservedEntity, owners: map<ColumnKey, string>)
    returns (owners': map<ColumnKey, string>)
    modifies client.store
    ensures client.History() == RecordAll(old(client.History()), EntityWriter(client.AllowLists())(ent))
    ensures owners' == AddOwners(owners, ent.columns, ent.uid)
  {
    ghost var start := client.History();
    var subtype := PickSubtype(client.entitySubtypes, ent.candidateLabels);
    ghost var head := Effect(UpsertEntity(ent.uid, subtype, ent.attributes));
    var _ := client.UpsertEntity(ent.uid, subtype, ent.attributes);
    owners' := LoadOwnedColumns(client, ent.columns, ent.uid, owners);
    RecordOne(start, head);
    RecordAllConcat(start, [head], Gather(ColumnWriter(), ent.columns));
  }

  lemma EntitiesStep(j: Journal, allow: Allow, entities: seq<ObservedEntity>, i: nat)
    requires i < |entities|
    ensures RecordAll(j, Gather(EntityWriter(allow), entities[..i + 1]))
         == RecordAll(RecordAll(j, Gather(EntityWriter(allow), entities[..i])), EntityWriter(allow)(entities[i]))
    ensures Owners(entities[..i + 1]) == AddOwners(Owners(entities[..i]), entities[i].columns, entities[i].uid)
  {
    assert entities[..i + 1][..i] == entities[..i];
    GatherStep(j, EntityWriter(allow), entities, i);
  }

  method LoadEntities(client: GraphClient, entities: seq<ObservedEntity>) returns (owners: map<ColumnKey, string>)
    modifies client.store
    ensures client.History() == RecordAll(old(client.History()), Gather(EntityWriter(client.AllowLists()), entities))
    ensures owners == Owners(entities)
  {
    ghost var start, allow := client.History(), client.AllowLists();
    owners := map[];
    for i := 0 to |entities|
      invariant client.History() == RecordAll(start, Gather(EntityWriter(allow), entities[..i]))
      invariant owners == Owners(entities[..i])
    {
      EntitiesStep(start, allow, entities, i);
      owners := LoadEntity(client, entities[i], owners);
    }
    assert entities[..|entities|] == entities;
  }

  /** Stops at the first relation whose type no pack allow-lists. */
  method LoadRelations(client: GraphClient, relations: seq<ObservedRelation>, prov: EdgeProvenance)
    returns (r: Result<()>)
    modifies client.store
    ensures var n := AdmittedCount(client.AllowLists(), relations);
            && client.History() == RecordAll(old(client.History()), Gather(RelationWriter(prov), relations[..n]))
            && (r.Ok? <==> n == |relations|)
            && (r.Err? ==> r.error == WriteValidationError(RelTypeOf(relations[n])))
  {
    ghost var start, n := client.History(), AdmittedCount(client.AllowLists(), relations);
    for i := 0 to |relations|
      invariant i <= n
      invariant client.History() == RecordAll(start, Gather(RelationWriter(prov), relations[..i]))
    {
      var rel := relations[i];
      ghost var before := client.History();
      var outcome := client.RelateEntities(rel.subjectUid, rel.objectUid, rel.role, prov, RelTypeOf(rel));
      if outcome.Err? {
        assert i == n;
        return Err(WriteValidationError(RelTypeOf(rel)));
      }
      GatherStep(start, RelationWriter(prov), relations, i);
      RecordOne(before, Effect(RelateEntities(rel.subjectUid, rel.objectUid, rel.role, prov, RelTypeOf(rel))));
    }
    r := Ok(());
  }

  lemma AllAdmitted(allow: Allow, b: ParsedBundle)
    ensures Admitted(allow, b) <==> AdmittedCount(allow, b.relations) == |b.relations|
  {
    var n := AdmittedCount(allow, b.relations);
    if n < |b.relations| { assert b.relations[n] in b.relations; }
  }

  lemma RecordsCompiled(j: Journal, allow: Allow, b: ParsedBundle)
    ensures RecordAll(j, RecordWrites(allow, b))
         == RecordAll(RecordAll(RecordAll(RecordAll(j, Gather(DocumentWriter(ProvOf(b)), b.documents)),
              Gather(ColumnWriter(), b.columns)), Gather(EntityWriter(allow), b.entities)),
              Gather(RelationWriter(ProvOf(b)), b.relations[..AdmittedCount(allow, b.relations)]))
  {
    var w0 := Gather(DocumentWriter(ProvOf(b)), b.documents);
    var w1 := Gather(ColumnWriter(), b.columns);
    var w2 := Gather(EntityWriter(allow), b.entities);
    RecordAllConcat(j, w0, w1);
    RecordAllConcat(j, w0 + w1, w2);
    var w3 := Gather(RelationWriter(ProvOf(b)), b.relations[..AdmittedCount(allow, b.relations)]);
    RecordAllConcat(j, w0 + w1 + w2, w3);
  }

  /** The error names the first relation type that no pack allow-lists. */
  predicate RejectedBy(allow: Allow, b: ParsedBundle, error: Error) {
    var n := AdmittedCount(allow, b.relations);
    n < |b.relations| && error == WriteValidationError(RelTypeOf(b.relations[n]))
  }

  /** Documents, columns, entities and relations, in that order. */
  method LoadRecords(client: GraphClient, bundle: ParsedBundle)
    returns (owners: map<ColumnKey, string>, related: Result<()>)
    modifies client.store
    ensures client.History() == RecordAll(old(client.History()), RecordWrites(client.AllowLists(), bundle))
    ensures owners == Owners(bundle.entities)
    ensures related.Ok? <==> Admitted(client.AllowLists(), bundle)
    ensures related.Err? ==> RejectedBy(client.AllowLists(), bundle, related.error)
  {
    RecordsCompiled(client.History(), client.AllowLists(), bundle);
    AllAdmitted(client.AllowLists(), bundle);
    var prov := ProvOf(bundle);
    LoadDocuments(client, bundle.documents, prov);
    LoadColumns(client, bundle.columns);
    owners := LoadEntities(client, bundle.entities);
    related := LoadRelations(client, bundle.relations, prov);
  }

  // ---- Resolving the columns ---------------------------------------------------------------

  lemma SameDecision(f: Funnel, g: Graph, h: Graph, c: ObservedColumn)
    requires MetricView(g) == MetricView(h)
    ensures Decide(f, g, c) == Decide(f, h, c)
  {
  }

  lemma {:induction false} SameDecisions(f: Funnel, g: Graph, h: Graph, columns: seq<ObservedColumn>)
    requires MetricView(g) == MetricView(h)
    ensures Decisions(f, g, columns) == Decisions(f, h, columns)
  {
    if columns != [] { SameDecisions(f, g, h, columns[..|columns| - 1]); }
  }

  lemma DecisionsStep(f: Funnel, g: Graph, columns: seq<ObservedColumn>, i: nat)
    requires i < |columns|
    ensures Decisions(f, g, columns[..i + 1]) == Decisions(f, g, columns[..i]) + [Decide(f, g, columns[i])]
  {
    assert columns[..i + 1][..i] == columns[..i];
  }

  lemma EscalatedStep(rs: seq<Resolution>, r: Resolution)
    ensures EscalatedOf(rs + [r]) == EscalatedOf(rs) + if r.tier == Escalated then [r] else []
  {
    assert (rs + [r])[..|rs|] == rs;
  }

  /** Resolving the next column against the graph written so far is resolving it against the
      graph the load of links began with. */
  lemma ResolveStep(f: Funnel, j: Journal, owners: map<ColumnKey, string>, prov: EdgeProvenance,
                    columns: seq<ObservedColumn>, i: nat)
    requires i < |columns|
    ensures var writer := LinkWriter(Index(j.graph), owners, prov);
            var before := RecordAll(j, Gather(writer, columns[..i]));
            && RecordAll(before, LinkWriter(Index(before.graph), owners, prov)(columns[i]))
                 == RecordAll(j, Gather(writer, columns[..i + 1]))
            && Decisions(f, j.graph, columns[..i + 1])
                 == Decisions(f, j.graph, columns[..i]) + [Decide(f, before.graph, columns[i])]
  {
    var writer := LinkWriter(Index(j.graph), owners, prov);
    var ws := Gather(writer, columns[..i]);
    Recorded(j, ws);
    LinksAvoidMetrics(Index(j.graph), owners, prov, columns[..i]);
    MetricsKept(j.graph, ws);
    GatherStep(j, writer, columns, i);
    SameDecision(f, j.graph, ApplyAll(j.graph, ws), columns[i]);
    DecisionsStep(f, j.graph, columns, i);
  }

  function LinksFor(outcome: Resolution, owners: map<ColumnKey, string>, prov: EdgeProvenance,
                    c: ObservedColumn): seq<Write> {
    if outcome.tier != AutoLinked || outcome.metricKey.None? || outcome.metricKey.value == "" then [] else
      [Effect(Link(Measures(c.system, c.table, c.name, outcome.metricKey.value), prov))]
        + if KeyOf(c) in owners then [Effect(Link(AppliesTo(outcome.metricKey.value, owners[KeyOf(c)]), prov))] else []
  }

  lemma LinkedAsCompiled(index: map<string, string>, owners: map<ColumnKey, string>, prov: EdgeProvenance, f: Funnel,
                         g: Graph, c: ObservedColumn)
    requires index == Index(g)
    ensures LinksFor(Decide(f, g, c), owners, prov, c) == LinkWriter(index, owners, prov)(c)
  {
  }

  method LinkColumn(client: GraphClient, col: ObservedColumn, outcome: Resolution, owners: map<ColumnKey, string>,
                    prov: EdgeProvenance)
    modifies client.store
    ensures client.History() == RecordAll(old(client.History()), LinksFor(outcome, owners, prov, col))
  {
    ghost var j := client.History();
    if outcome.tier == AutoLinked && outcome.metricKey.Some? && outcome.metricKey.value != "" {
      var metricKey := outcome.metricKey.value;
      ghost var first := Effect(Link(Measures(col.system, col.table, col.name, metricKey), prov));
      client.LinkColumnToMetric(col.system, col.table, col.name, metricKey, prov);
      RecordOne(j, first);
      if KeyOf(col) in owners {
        ghost var second := Effect(Link(AppliesTo(metricKey, owners[KeyOf(col)]), prov));
        client.LinkMetricToEntity(metricKey, owners[KeyOf(col)], prov);
        RecordOne(Record(j, first), second);
        RecordAllConcat(j, [first], [second]);
      }
    }
  }

  method ResolveColumn(client: GraphClient, resolver: Resolver, col: ObservedColumn, owners: map<ColumnKey, string>,
                       prov: EdgeProvenance)
    returns (outcome: Resolution)
    requires resolver.client.store == client.store
    modifies client.store, resolver.queue
    ensures var j := old(client.History());
            && outcome == Decide(resolver.funnel, j.graph, col)
            && client.History() == RecordAll(j, LinkWriter(Index(j.graph), owners, prov)(col))
            && resolver.queue.items == old(resolver.queue.items) + if outcome.tier == Escalated then [outcome] else []
  {
    ghost var g := client.Contents();
    outcome := resolver.Resolve(col);
    LinkColumn(client, col, outcome, owners, prov);
    LinkedAsCompiled(Index(g), owners, prov, resolver.funnel, g, col);
  }

  method ResolveAll(client: GraphClient, resolver: Resolver, columns: seq<ObservedColumn>,
                    owners: map<ColumnKey, string>, prov: EdgeProvenance)
    returns (resolutions: seq<Resolution>)
    requires resolver.client.store == client.store
    modifies client.store, resolver.queue
    ensures var j := old(client.History());
            && client.History() == RecordAll(j, Gather(LinkWriter(Index(j.graph), owners, prov), columns))
            && resolutions == Decisions(resolver.funnel, j.graph, columns)
            && resolver.queue.items == old(resolver.queue.items) + EscalatedOf(resolutions)
  {
    ghost var j := client.History();
    ghost var writer := LinkWriter(Index(j.graph), owners, prov);
    resolutions := [];
    for i := 0 to |columns|
      invariant client.History() == RecordAll(j, Gather(writer, columns[..i]))
      invariant resolutions == Decisions(resolver.funnel, j.graph, columns[..i])
      invariant resolver.queue.items == old(resolver.queue.items) + EscalatedOf(resolutions)
    {
      ResolveStep(resolver.funnel, j, owners, prov, columns, i);
      var outcome := ResolveColumn(client, resolver, columns[i], owners, prov);
      EscalatedStep(resolutions, outcome);
      resolutions := resolutions + [outcome];
    }
    assert columns[..|columns|] == columns;
  }

  // ---- The loader --------------------------------------------------------------------------

  /** Resolving column by column against the growing graph is resolving against the graph the
      load began with. */
  lemma LoadCompiled(f: Funnel, j: Journal, allow: Allow, b: ParsedBundle)
    ensures var records := RecordAll(j, RecordWrites(allow, b));
            var links := Gather(LinkWriter(Index(records.graph), Owners(b.entities), ProvOf(b)), b.IterColumns());
            && RecordAll(j, LoadWrites(allow, Index(j.graph), b))
                 == (if Admitted(allow, b) then RecordAll(records, links) else records)
            && Decisions(f, records.graph, b.IterColumns()) == Decisions(f, j.graph, b.IterColumns())
  {
    AllAdmitted(allow, b);
    RecordsAvoidMetrics(allow, b);
    MetricsKept(j.graph, RecordWrites(allow, b));
    Recorded(j, RecordWrites(allow, b));
    SameDecisions(f, ApplyAll(j.graph, RecordWrites(allow, b)), j.graph, b.IterColumns());
    RecordAllConcat(j, RecordWrites(allow, b), ResolutionWrites(allow, Index(j.graph), b));
    RecordNone(RecordAll(j, RecordWrites(allow, b)));
  }

  lemma RecordNone(j: Journal)
    ensures RecordAll(j, []) == j
  {
  }

  /** The upserts are the compiled ones, one by one and in order. */
  method LoadBundle(client: GraphClient, resolver: Resolver, bundle: ParsedBundle) returns (r: Result<seq<Resolution>>)
    requires resolver.client.store == client.store
    modifies client.store, resolver.queue
    ensures var g, ws := old(client.Contents()), LoadWrites(client.AllowLists(), Index(old(client.Contents())), bundle);
            && client.store.log == old(client.store.log) + ws
            && client.Contents() == ApplyAll(g, ws)
            && (r.Ok? <==> Admitted(client.AllowLists(), bundle))
            && (r.Ok? ==> r.value == Decisions(resolver.funnel, g, bundle.IterColumns()))
            && (r.Err? ==> RejectedBy(client.AllowLists(), bundle, r.error))
            && resolver.queue.items == old(resolver.queue.items)
                 + Appended(client.AllowLists(), resolver.funnel, g, bundle)
  {
    ghost var j, allow := client.History(), client.AllowLists();
    LoadCompiled(resolver.funnel, j, allow, bundle);
    Recorded(j, LoadWrites(allow, Index(j.graph), bundle));
    var owners, related := LoadRecords(client, bundle);
    if related.Err? {
      return Err(related.error);
    }
    var resolutions := ResolveAll(client, resolver, bundle.IterColumns(), owners, ProvOf(bundle));
    r := Ok(resolutions);
  }
}
