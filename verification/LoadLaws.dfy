/** What a load does to the graph: idempotence, re-fetching, its exact links, and what a
    reader finds afterwards. */
module LoadLaws {
  import opened Wrappers
  import opened PyStrings
  import opened Graphs
  import opened GraphLaws
  import opened Stores
  import opened Client
  import opened AliasLaws
  import opened Ir
  import opened Resolvers
  import opened Pipeline
  import opened StrictStore

  /** The graph after loading a bundle. */
  function Loaded(allow: Allow, g: Graph, b: ParsedBundle): Graph {
    ApplyAll(g, LoadWrites(allow, Index(g), b))
  }

  /** The same content fetched at another time. */
  function FetchedAt(b: ParsedBundle, time: string): ParsedBundle {
    b.(provenance := b.provenance.(fetchedAt := time))
  }

  // ---- Re-fetching changes values only ---------------------------------------------------

  lemma {:induction false} GatherAlike<T>(f: T -> seq<Write>, h: T -> seq<Write>, xs: seq<T>)
    requires forall x :: x in xs ==> AllAlike(f(x), h(x))
    ensures AllAlike(Gather(f, xs), Gather(h, xs))
  {
    if xs != [] {
      assert forall x :: x in xs[..|xs| - 1] ==> x in xs;
      assert xs[|xs| - 1] in xs;
      GatherAlike(f, h, xs[..|xs| - 1]);
    }
  }

  lemma AlikeConcat(a: seq<Write>, b: seq<Write>, c: seq<Write>, d: seq<Write>)
    requires AllAlike(a, b) && AllAlike(c, d)
    ensures AllAlike(a + c, b + d)
  {
  }

  lemma DocumentsAlike(p: EdgeProvenance, q: EdgeProvenance, documents: seq<ObservedDocument>)
    ensures AllAlike(Gather(DocumentWriter(p), documents), Gather(DocumentWriter(q), documents))
  {
    forall d: ObservedDocument ensures AllAlike(DocumentWriter(p)(d), DocumentWriter(q)(d)) {
      GatherAlike(DescribesWriter(d.uri, p), DescribesWriter(d.uri, q), d.describes);
      GatherAlike(DefinesWriter(d.uri, p), DefinesWriter(d.uri, q), d.defines);
    }
    GatherAlike(DocumentWriter(p), DocumentWriter(q), documents);
  }

  lemma RelationsAlike(p: EdgeProvenance, q: EdgeProvenance, relations: seq<ObservedRelation>)
    ensures AllAlike(Gather(RelationWriter(p), relations), Gather(RelationWriter(q), relations))
  {
    GatherAlike(RelationWriter(p), RelationWriter(q), relations);
  }

  lemma LinksAlike(index: map<string, string>, owners: map<ColumnKey, string>, p: EdgeProvenance, q: EdgeProvenance,
                   columns: seq<ObservedColumn>)
    ensures AllAlike(Gather(LinkWriter(index, owners, p), columns), Gather(LinkWriter(index, owners, q), columns))
  {
    GatherAlike(LinkWriter(index, owners, p), LinkWriter(index, owners, q), columns);
  }

  /** Fetched at two times, a bundle compiles to writes that set the same things. */
  lemma RefetchAlike(allow: Allow, index: map<string, string>, b: ParsedBundle, s: string, t: string)
    ensures AllAlike(LoadWrites(allow, index, FetchedAt(b, s)), LoadWrites(allow, index, FetchedAt(b, t)))
  {
    var x, y := FetchedAt(b, s), FetchedAt(b, t);
    var p, q, n := ProvOf(x), ProvOf(y), AdmittedCount(allow, b.relations);
    var same := Gather(ColumnWriter(), b.columns);
    DocumentsAlike(p, q, b.documents);
    RelationsAlike(p, q, b.relations[..n]);
    AlikeConcat(Gather(DocumentWriter(p), b.documents), Gather(DocumentWriter(q), b.documents), same, same);
    AlikeConcat(Gather(DocumentWriter(p), b.documents) + same, Gather(DocumentWriter(q), b.documents) + same,
                Gather(EntityWriter(allow), b.entities), Gather(EntityWriter(allow), b.entities));
    AlikeConcat(Gather(DocumentWriter(p), b.documents) + same + Gather(EntityWriter(allow), b.entities),
                Gather(DocumentWriter(q), b.documents) + same + Gather(EntityWriter(allow), b.entities),
                Gather(RelationWriter(p), b.relations[..n]), Gather(RelationWriter(q), b.relations[..n]));
    LinksAlike(index, Owners(b.entities), p, q, b.IterColumns());
    AlikeConcat(RecordWrites(allow, x), RecordWrites(allow, y), ResolutionWrites(allow, index, x),
                ResolutionWrites(allow, index, y));
  }

  /** An interrupted load followed by a whole one, of the same content fetched at another
      time, is the whole one. With `k` the full length and equal times: loading twice in a row
      is loading once, insertion orders included. */
  lemma InterruptedLoad(allow: Allow, g: Graph, b: ParsedBundle, s: string, t: string, k: nat)
    requires k <= |LoadWrites(allow, Index(g), FetchedAt(b, s))|
    ensures var partial := ApplyAll(g, LoadWrites(allow, Index(g), FetchedAt(b, s))[..k]);
            Loaded(allow, partial, FetchedAt(b, t)) == Loaded(allow, g, FetchedAt(b, t))
  {
    var ws := LoadWrites(allow, Index(g), FetchedAt(b, s));
    assert Avoids(ws[..k], "Metric") by { LoadAvoidsMetrics(allow, Index(g), FetchedAt(b, s)); }
    MetricsKept(g, ws[..k]);
    RefetchAlike(allow, Index(g), b, s, t);
    PrefixAbsorb(g, ws, LoadWrites(allow, Index(g), FetchedAt(b, t)), k);
  }

  /** A load leaves the metrics, and with them the tier-1 index, as they are. */
  lemma LoadKeepsMetrics(allow: Allow, g: Graph, b: ParsedBundle)
    ensures MetricView(Loaded(allow, g, b)) == MetricView(g) && Index(Loaded(allow, g, b)) == Index(g)
  {
    LoadAvoidsMetrics(allow, Index(g), b);
    MetricsKept(g, LoadWrites(allow, Index(g), b));
  }

  lemma LoadTwice(allow: Allow, g: Graph, b: ParsedBundle)
    ensures Loaded(allow, Loaded(allow, g, b), b) == Loaded(allow, g, b)
    ensures Index(Loaded(allow, g, b)) == Index(g)
    ensures forall f: Funnel :: Decisions(f, Loaded(allow, g, b), b.IterColumns()) == Decisions(f, g, b.IterColumns())
  {
    var ws, t := LoadWrites(allow, Index(g), b), b.provenance.fetchedAt;
    assert FetchedAt(b, t) == b && ws[..|ws|] == ws;
    InterruptedLoad(allow, g, b, t, t, |ws|);
    LoadAvoidsMetrics(allow, Index(g), b);
    MetricsKept(g, ws);
    forall f: Funnel { SameDecisions(f, Loaded(allow, g, b), g, b.IterColumns()); }
  }

  /** The same load, run twice against the store whose edge writes need both endpoints,
      reaches the nodes and the anchored edges of one run against the permissive store, and
      stays there. */
  lemma TwoPassLoad(allow: Allow, g: Graph, b: ParsedBundle)
    requires NoDangling(g)
    ensures var ws := LoadWrites(allow, Index(g), b);
            var once := StrictAll(g, ws);
            var twice := StrictAll(once, LoadWrites(allow, Index(once), b));
            && twice.nodes == Loaded(allow, g, b).nodes
            && twice.edges.cells == Anchored(Loaded(allow, g, b))
            && StrictAll(twice, LoadWrites(allow, Index(twice), b)) == twice
  {
    var ws := LoadWrites(allow, Index(g), b);
    var once := StrictAll(g, ws);
    LoadAvoidsMetrics(allow, Index(g), b);
    MetricsKept(g, ws);
    SameNodes(g, g, ws);
    NodesDecideIndex(once, Loaded(allow, g, b));
    TwoPassConvergence(g, ws);
    NodesDecideIndex(StrictAll(once, ws), Loaded(allow, g, b));
  }

  lemma NodesDecideIndex(g: Graph, h: Graph)
    requires g.nodes == h.nodes
    ensures Index(g) == Index(h)
  {
  }

  // ---- Ownership -------------------------------------------------------------------------

  predicate Carries(e: ObservedEntity, key: ColumnKey) { exists c :: c in e.columns && KeyOf(c) == key }

  lemma {:induction false} AddOwnersEntry(owners: map<ColumnKey, string>, columns: seq<ObservedColumn>, uid: string,
                                          key: ColumnKey)
    ensures key in AddOwners(owners, columns, uid) <==> key in owners || exists c :: c in columns && KeyOf(c) == key
    ensures (exists c :: c in columns && KeyOf(c) == key) ==> AddOwners(owners, columns, uid)[key] == uid
    ensures key in owners && !(exists c :: c in columns && KeyOf(c) == key)
            ==> AddOwners(owners, columns, uid)[key] == owners[key]
  {
    if columns != [] {
      var init, last := columns[..|columns| - 1], columns[|columns| - 1];
      assert columns == init + [last];
      AddOwnersEntry(owners, init, uid, key);
      if KeyOf(last) == key { assert last in columns; }
    }
  }

  /** Position of the last entity that carries the column, or -1. */
  function LastCarrier(entities: seq<ObservedEntity>, key: ColumnKey): (i: int)
    ensures -1 <= i < |entities|
    ensures i >= 0 ==> Carries(entities[i], key)
    ensures forall j :: i < j < |entities| ==> !Carries(entities[j], key)
  {
    if entities == [] then -1
    else if Carries(entities[|entities| - 1], key) then |entities| - 1
    else LastCarrier(entities[..|entities| - 1], key)
  }

  /** `owner_of` maps each carried column to the last entity carrying it. */
  lemma {:induction false} OwnerIsLastCarrier(entities: seq<ObservedEntity>, key: ColumnKey)
    ensures key in Owners(entities) <==> LastCarrier(entities, key) >= 0
    ensures key in Owners(entities) ==> Owners(entities)[key] == entities[LastCarrier(entities, key)].uid
  {
    if entities != [] {
      var init, e := entities[..|entities| - 1], entities[|entities| - 1];
      OwnerIsLastCarrier(init, key);
      AddOwnersEntry(Owners(init), e.columns, e.uid, key);
    }
  }

  // ---- Exact links -----------------------------------------------------------------------

  predicate IndexedTo(index: map<string, string>, c: ObservedColumn, metricKey: string) {
    Casefold(c.name) in index && index[Casefold(c.name)] == metricKey && metricKey != ""
  }

  /** What some element of a gathered list targets. */
  ghost predicate SomeTargets<T>(f: T -> seq<Write>, xs: seq<T>, r: Ref) {
    exists i :: 0 <= i < |xs| && Targets(f(xs[i]), r)
  }

  lemma {:induction false} GatherTargets<T>(f: T -> seq<Write>, xs: seq<T>, r: Ref)
    ensures Targets(Gather(f, xs), r) <==> SomeTargets(f, xs, r)
  {
    if xs != [] {
      var n := |xs| - 1;
      GatherTargets(f, xs[..n], r);
      TargetsConcat(Gather(f, xs[..n]), f(xs[n]), r);
      assert forall i :: 0 <= i < n ==> xs[..n][i] == xs[i];
    }
  }

  lemma TargetsOne(w: Write, r: Ref)
    ensures Targets([w], r) <==> w.ref == r
    ensures !Targets([], r)
  {
  }

  /** What the link step of one column targets. */
  lemma ColumnLinks(index: map<string, string>, owners: map<ColumnKey, string>, prov: EdgeProvenance,
                    c: ObservedColumn, r: Ref)
    ensures Targets(LinkWriter(index, owners, prov)(c), r) <==>
            && Casefold(c.name) in index && index[Casefold(c.name)] != ""
            && (|| r == EdgeRef(Measures(c.system, c.table, c.name, index[Casefold(c.name)]))
                || (KeyOf(c) in owners && r == EdgeRef(AppliesTo(index[Casefold(c.name)], owners[KeyOf(c)]))))
  {
    var name := Casefold(c.name);
    if name in index && index[name] != "" {
      var first := EdgeWrite(Measures(c.system, c.table, c.name, index[name]), prov);
      TargetsOne(first, r);
      if KeyOf(c) in owners {
        var second := EdgeWrite(AppliesTo(index[name], owners[KeyOf(c)]), prov);
        TargetsOne(second, r);
        TargetsConcat([first], [second], r);
      }
    }
  }

  ghost predicate MeasuredBy(index: map<string, string>, columns: seq<ObservedColumn>, key: ColumnKey,
                             metricKey: string) {
    exists i :: 0 <= i < |columns| && KeyOf(columns[i]) == key && IndexedTo(index, columns[i], metricKey)
  }

  ghost predicate AppliedBy(index: map<string, string>, owners: map<ColumnKey, string>, columns: seq<ObservedColumn>,
                            metricKey: string, uid: string) {
    exists i :: 0 <= i < |columns| && IndexedTo(index, columns[i], metricKey)
             && KeyOf(columns[i]) in owners && owners[KeyOf(columns[i])] == uid
  }

  lemma MeasuresInLinks(index: map<string, string>, owners: map<ColumnKey, string>, prov: EdgeProvenance,
                        columns: seq<ObservedColumn>,
                        key: ColumnKey, metricKey: string)
    ensures Targets(Gather(LinkWriter(index, owners, prov), columns),
                    EdgeRef(Measures(key.system, key.table, key.name, metricKey)))
        <==> MeasuredBy(index, columns, key, metricKey)
  {
    var r := EdgeRef(Measures(key.system, key.table, key.name, metricKey));
    GatherTargets(LinkWriter(index, owners, prov), columns, r);
    forall c { ColumnLinks(index, owners, prov, c, r); }
  }

  lemma AppliesToInLinks(index: map<string, string>, owners: map<ColumnKey, string>, prov: EdgeProvenance,
                         columns: seq<ObservedColumn>,
                         metricKey: string, uid: string)
    ensures Targets(Gather(LinkWriter(index, owners, prov), columns), EdgeRef(AppliesTo(metricKey, uid)))
        <==> AppliedBy(index, owners, columns, metricKey, uid)
  {
    var r := EdgeRef(AppliesTo(metricKey, uid));
    GatherTargets(LinkWriter(index, owners, prov), columns, r);
    forall c { ColumnLinks(index, owners, prov, c, r); }
  }

  /** Links are written by the resolution phase only. */
  lemma LinksOfLoad(allow: Allow, index: map<string, string>, b: ParsedBundle, e: EdgeId)
    requires Admitted(allow, b) && !RecordRef(EdgeRef(e))
    ensures Targets(LoadWrites(allow, index, b), EdgeRef(e)) <==>
            Targets(Gather(LinkWriter(index, Owners(b.entities), ProvOf(b)), b.IterColumns()), EdgeRef(e))
  {
    NoneRejected(allow, b);
    RecordWritesAreRecords(allow, b);
    TargetsConcat(RecordWrites(allow, b), ResolutionWrites(allow, index, b), EdgeRef(e));
    if Targets(RecordWrites(allow, b), EdgeRef(e)) { var w := MemberTargets(RecordWrites(allow, b), EdgeRef(e)); }
  }

  predicate AutoLinksTo(f: Funnel, g: Graph, c: ObservedColumn, metricKey: string) {
    metricKey != "" && Decide(f, g, c).tier == AutoLinked && Decide(f, g, c).metricKey == Some(metricKey)
  }

  lemma AutoLinksByIndex(f: Funnel, g: Graph, c: ObservedColumn, metricKey: string)
    ensures AutoLinksTo(f, g, c, metricKey) <==> IndexedTo(Index(g), c, metricKey)
  {
  }

  /** A load writes a MEASURES edge exactly for each column it auto-links to a metric. */
  lemma MeasuresExactly(allow: Allow, f: Funnel, g: Graph, b: ParsedBundle, key: ColumnKey, metricKey: string)
    requires Admitted(allow, b)
    ensures Targets(LoadWrites(allow, Index(g), b), EdgeRef(Measures(key.system, key.table, key.name, metricKey))) <==>
            exists i :: 0 <= i < |b.IterColumns()| && KeyOf(b.IterColumns()[i]) == key
              && AutoLinksTo(f, g, b.IterColumns()[i], metricKey)
  {
    var columns := b.IterColumns();
    LinksOfLoad(allow, Index(g), b, Measures(key.system, key.table, key.name, metricKey));
    MeasuresInLinks(Index(g), Owners(b.entities), ProvOf(b), columns, key, metricKey);
    forall i | 0 <= i < |columns|
      ensures AutoLinksTo(f, g, columns[i], metricKey) <==> IndexedTo(Index(g), columns[i], metricKey)
    {
      AutoLinksByIndex(f, g, columns[i], metricKey);
    }
  }

  /** It writes an APPLIES_TO edge exactly for each auto-linked column that an entity of the
      bundle carries, to the last such entity. */
  lemma AppliesToExactly(allow: Allow, f: Funnel, g: Graph, b: ParsedBundle, metricKey: string, uid: string)
    requires Admitted(allow, b)
    ensures Targets(LoadWrites(allow, Index(g), b), EdgeRef(AppliesTo(metricKey, uid))) <==>
            exists i :: 0 <= i < |b.IterColumns()| && AutoLinksTo(f, g, b.IterColumns()[i], metricKey)
                     && LastCarrier(b.entities, KeyOf(b.IterColumns()[i])) >= 0
                     && b.entities[LastCarrier(b.entities, KeyOf(b.IterColumns()[i]))].uid == uid
  {
    var columns := b.IterColumns();
    LinksOfLoad(allow, Index(g), b, AppliesTo(metricKey, uid));
    AppliesToInLinks(Index(g), Owners(b.entities), ProvOf(b), columns, metricKey, uid);
    forall i | 0 <= i < |columns|
      ensures AutoLinksTo(f, g, columns[i], metricKey) <==> IndexedTo(Index(g), columns[i], metricKey)
      ensures KeyOf(columns[i]) in Owners(b.entities) <==> LastCarrier(b.entities, KeyOf(columns[i])) >= 0
      ensures KeyOf(columns[i]) in Owners(b.entities) ==>
                Owners(b.entities)[KeyOf(columns[i])] == b.entities[LastCarrier(b.entities, KeyOf(columns[i]))].uid
    {
      AutoLinksByIndex(f, g, columns[i], metricKey);
      OwnerIsLastCarrier(b.entities, KeyOf(columns[i]));
    }
  }

  lemma NoneRejected(allow: Allow, b: ParsedBundle)
    requires Admitted(allow, b)
    ensures AdmittedCount(allow, b.relations) == |b.relations|
  {
    AllAdmitted(allow, b);
  }

  // ---- Exact records ---------------------------------------------------------------------

  lemma FourParts(a: seq<Write>, b: seq<Write>, c: seq<Write>, d: seq<Write>, r: Ref)
    ensures Targets(a + b + c + d, r) <==> Targets(a, r) || Targets(b, r) || Targets(c, r) || Targets(d, r)
  {
    TargetsConcat(a, b, r);
    TargetsConcat(a + b, c, r);
    TargetsConcat(a + b + c, d, r);
  }

  predicate DescribedBy(uri: string, uids: seq<string>, r: Ref) {
    exists i :: 0 <= i < |uids| && r == EdgeRef(Describes(uri, uids[i]))
  }

  predicate DefinedBy(uri: string, metricKeys: seq<string>, r: Ref) {
    exists i :: 0 <= i < |metricKeys| && r == EdgeRef(DefinedIn(metricKeys[i], uri))
  }

  lemma DescribesTarget(uri: string, prov: EdgeProvenance, uids: seq<string>, r: Ref)
    ensures Targets(Gather(DescribesWriter(uri, prov), uids), r) <==> DescribedBy(uri, uids, r)
  {
    GatherTargets(DescribesWriter(uri, prov), uids, r);
    forall uid: string ensures Targets(DescribesWriter(uri, prov)(uid), r) <==> r == EdgeRef(Describes(uri, uid)) {
      TargetsOne(EdgeWrite(Describes(uri, uid), prov), r);
    }
  }

  lemma DefinesTarget(uri: string, prov: EdgeProvenance, metricKeys: seq<string>, r: Ref)
    ensures Targets(Gather(DefinesWriter(uri, prov), metricKeys), r) <==> DefinedBy(uri, metricKeys, r)
  {
    GatherTargets(DefinesWriter(uri, prov), metricKeys, r);
    forall k: string ensures Targets(DefinesWriter(uri, prov)(k), r) <==> r == EdgeRef(DefinedIn(k, uri)) {
      TargetsOne(EdgeWrite(DefinedIn(k, uri), prov), r);
    }
  }

  /** What one document targets: itself, and an edge for each entity it describes and each
      metric it defines. */
  lemma DocumentTargets(prov: EdgeProvenance, d: ObservedDocument, r: Ref)
    ensures Targets(DocumentWriter(prov)(d), r) <==>
            r == NodeRef(Document(d.uri)) || DescribedBy(d.uri, d.describes, r) || DefinedBy(d.uri, d.defines, r)
  {
    var head := Effect(UpsertDocument(d.uri, d.title, d.text, d.asOf));
    var describes := Gather(DescribesWriter(d.uri, prov), d.describes);
    var defines := Gather(DefinesWriter(d.uri, prov), d.defines);
    TargetsConcat([head], describes, r);
    TargetsConcat([head] + describes, defines, r);
    TargetsOne(head, r);
    DescribesTarget(d.uri, prov, d.describes, r);
    DefinesTarget(d.uri, prov, d.defines, r);
  }

  predicate NamesColumn(columns: seq<ObservedColumn>, r: Ref) {
    exists i :: 0 <= i < |columns| && r == NodeRef(Column(columns[i].system, columns[i].table, columns[i].name))
  }

  lemma ColumnsTarget(columns: seq<ObservedColumn>, r: Ref)
    ensures Targets(Gather(ColumnWriter(), columns), r) <==> NamesColumn(columns, r)
  {
    GatherTargets(ColumnWriter(), columns, r);
    forall c ensures Targets(ColumnWriter()(c), r) <==> r == NodeRef(Column(c.system, c.table, c.name)) {
      TargetsOne(ColumnWriter()(c)[0], r);
    }
  }

  lemma NamesColumnConcat(xs: seq<ObservedColumn>, ys: seq<ObservedColumn>, r: Ref)
    ensures NamesColumn(xs + ys, r) <==> NamesColumn(xs, r) || NamesColumn(ys, r)
  {
    var all := xs + ys;
    if i :| 0 <= i < |ys| && r == NodeRef(Column(ys[i].system, ys[i].table, ys[i].name)) {
      assert all[|xs| + i] == ys[i];
    }
    if i :| 0 <= i < |xs| && r == NodeRef(Column(xs[i].system, xs[i].table, xs[i].name)) {
      assert all[i] == xs[i];
    }
    if i :| 0 <= i < |all| && r == NodeRef(Column(all[i].system, all[i].table, all[i].name)) {
      assert i < |xs| ==> all[i] == xs[i];
      assert i >= |xs| ==> all[i] == ys[i - |xs|];
    }
  }

  predicate NamesEntity(entities: seq<ObservedEntity>, r: Ref) {
    exists i :: 0 <= i < |entities| && r == NodeRef(Entity(entities[i].uid))
  }

  lemma {:induction false} EntitiesTarget(allow: Allow, entities: seq<ObservedEntity>, r: Ref)
    ensures Targets(Gather(EntityWriter(allow), entities), r)
            <==> NamesEntity(entities, r) || NamesColumn(OwnedColumns(entities), r)
  {
    if entities != [] {
      var n := |entities| - 1;
      var init, e := entities[..n], entities[n];
      EntitiesTarget(allow, init, r);
      var head := Effect(UpsertEntity(e.uid, PickSubtype(allow.subtypes, e.candidateLabels), e.attributes));
      TargetsConcat(Gather(EntityWriter(allow), init), EntityWriter(allow)(e), r);
      TargetsConcat([head], Gather(ColumnWriter(), e.columns), r);
      TargetsOne(head, r);
      ColumnsTarget(e.columns, r);
      NamesColumnConcat(OwnedColumns(init), e.columns, r);
      assert NamesEntity(entities, r) <==> NamesEntity(init, r) || r == NodeRef(Entity(e.uid)) by {
        assert forall i :: 0 <= i < n ==> init[i] == entities[i];
      }
    }
  }

  predicate NamesRelation(relations: seq<ObservedRelation>, r: Ref) {
    exists i :: 0 <= i < |relations| && r == EdgeRef(RelationEdge(relations[i]))
  }

  lemma RelationsTarget(prov: EdgeProvenance, relations: seq<ObservedRelation>, r: Ref)
    ensures Targets(Gather(RelationWriter(prov), relations), r) <==> NamesRelation(relations, r)
  {
    GatherTargets(RelationWriter(prov), relations, r);
    forall rel ensures Targets(RelationWriter(prov)(rel), r) <==> r == EdgeRef(RelationEdge(rel)) {
      TargetsOne(EdgeWrite(RelationEdge(rel), prov), r);
    }
  }

  function RelationEdge(rel: ObservedRelation): EdgeId {
    Related(RelTypeOf(rel), rel.subjectUid, rel.objectUid, rel.role)
  }

  predicate NamesDocument(documents: seq<ObservedDocument>, r: Ref) {
    exists i :: 0 <= i < |documents| && r == NodeRef(Document(documents[i].uri))
  }

  predicate NamesDocumentEdge(documents: seq<ObservedDocument>, r: Ref) {
    exists i :: 0 <= i < |documents| &&
      (DescribedBy(documents[i].uri, documents[i].describes, r) || DefinedBy(documents[i].uri, documents[i].defines, r))
  }

  lemma DocumentsTarget(prov: EdgeProvenance, documents: seq<ObservedDocument>, r: Ref)
    ensures Targets(Gather(DocumentWriter(prov), documents), r)
            <==> NamesDocument(documents, r) || NamesDocumentEdge(documents, r)
  {
    GatherTargets(DocumentWriter(prov), documents, r);
    forall d { DocumentTargets(prov, d, r); }
  }

  /** The records of a bundle are written exactly: its documents with what they describe and
      define, every column of `iter_columns`, every entity, and the relations before the first
      rejected one. */
  lemma RecordsExactly(allow: Allow, b: ParsedBundle, r: Ref)
    ensures Targets(RecordWrites(allow, b), r) <==>
            || NamesDocument(b.documents, r) || NamesDocumentEdge(b.documents, r)
            || NamesColumn(b.IterColumns(), r) || NamesEntity(b.entities, r)
            || NamesRelation(b.relations[..AdmittedCount(allow, b.relations)], r)
  {
    var prov, n := ProvOf(b), AdmittedCount(allow, b.relations);
    FourParts(Gather(DocumentWriter(prov), b.documents), Gather(ColumnWriter(), b.columns),
              Gather(EntityWriter(allow), b.entities), Gather(RelationWriter(prov), b.relations[..n]), r);
    DocumentsTarget(prov, b.documents, r);
    ColumnsTarget(b.columns, r);
    EntitiesTarget(allow, b.entities, r);
    RelationsTarget(prov, b.relations[..n], r);
    NamesColumnConcat(b.columns, OwnedColumns(b.entities), r);
  }

  lemma LinksNotNodes(allow: Allow, index: map<string, string>, b: ParsedBundle, n: NodeId)
    ensures !Targets(ResolutionWrites(allow, index, b), NodeRef(n))
  {
    GatherTargets(LinkWriter(index, Owners(b.entities), ProvOf(b)), b.IterColumns(), NodeRef(n));
    forall c { ColumnLinks(index, Owners(b.entities), ProvOf(b), c, NodeRef(n)); }
  }

  /** After a load, whether or not a relation ended it early, the stored nodes are exactly
      those that were there and those its documents, columns and entities name. */
  lemma NodesExactly(allow: Allow, g: Graph, b: ParsedBundle, n: NodeId)
    ensures n in Loaded(allow, g, b).nodes.cells <==>
            || n in g.nodes.cells
            || NamesDocument(b.documents, NodeRef(n))
            || NamesColumn(b.IterColumns(), NodeRef(n))
            || NamesEntity(b.entities, NodeRef(n))
  {
    var r := NodeRef(n);
    StoredAfterAll(g, LoadWrites(allow, Index(g), b), r);
    TargetsConcat(RecordWrites(allow, b), ResolutionWrites(allow, Index(g), b), r);
    RecordsExactly(allow, b, r);
    LinksNotNodes(allow, Index(g), b, n);
  }

  // ---- Read after write ------------------------------------------------------------------

  /** After a write sequence, exactly what was there and what it targets is stored. */
  lemma StoredAfterAll(g: Graph, ws: seq<Write>, r: Ref)
    ensures Present(ApplyAll(g, ws), r) <==> Present(g, r) || Targets(ws, r)
  {
    FindAfterAll(g, ws, r);
  }

  lemma StoredEdgeIsNeighbor(g: Graph, e: EdgeId)
    requires e in g.edges.cells && e.dst in g.nodes.cells
    ensures var n := Neighbor(NodeView(e.dst, g.nodes.cells[e.dst]), g.edges.cells[e]);
            n in OutNeighbors(g, e.src, e.rel)
  {
    OutNeighborsMembers(g, e.src, e.rel, Neighbor(NodeView(e.dst, g.nodes.cells[e.dst]), g.edges.cells[e]));
  }

  /** The index only names stored metrics, and a load keeps them as they are. */
  lemma IndexedMetricStored(allow: Allow, g: Graph, b: ParsedBundle, name: string)
    requires Keyed(g) && name in Index(g)
    ensures var n := Metric(Index(g)[name]);
            var after := Loaded(allow, g, b);
            n in after.nodes.cells && MetricKeyOf(NodeView(n, after.nodes.cells[n])) == Index(g)[name]
  {
    var after := Loaded(allow, g, b);
    LoadAvoidsMetrics(allow, Index(g), b);
    MetricsKept(g, LoadWrites(allow, Index(g), b));
    IndexEntry(MetricView(g), name);
    var v := MetricView(g)[LastListing(MetricView(g), name)];
    ViewCells(g, v);
    ViewCells(after, v);
  }

  /** Every column of a loaded bundle can be read back; an auto-linked one shows its metric,
      and under it the last entity of the bundle that carries the column. */
  lemma ReadAfterWrite(allow: Allow, f: Funnel, g: Graph, b: ParsedBundle, c: ObservedColumn)
    requires Keyed(g) && Admitted(allow, b) && c in b.IterColumns()
    ensures var found := ResolvedColumn(Loaded(allow, g, b), c.system, c.table, c.name);
            var r := Decide(f, g, c);
            var last := LastCarrier(b.entities, KeyOf(c));
            && found.Some?
            && (r.tier == AutoLinked && r.metricKey != Some("") ==>
                  exists hit :: hit in found.value.metrics && hit.metric.id == Metric(r.metricKey.value)
                    && (last >= 0 ==> exists v :: v in hit.appliesTo && v.id == Entity(b.entities[last].uid)))
  {
    ColumnStored(allow, g, b, c);
    if Decide(f, g, c).tier == AutoLinked && Decide(f, g, c).metricKey != Some("") {
      MetricIsShown(allow, g, b, c, Index(g)[Casefold(c.name)]);
    }
  }

  lemma HitIsListed(g: Graph, system: string, table: string, name: string, n: Neighbor)
    requires n in OutNeighbors(g, Column(system, table, name), "MEASURES")
    ensures ResolvedColumn(g, system, table, name).Some? ==>
            Hit(g, n.node) in ResolvedColumn(g, system, table, name).value.metrics
  {
    var measured := OutNeighbors(g, Column(system, table, name), "MEASURES");
    var i :| 0 <= i < |measured| && measured[i] == n;
    assert Hits(g, measured)[i] == Hit(g, n.node);
  }

  lemma MetricIsShown(allow: Allow, g: Graph, b: ParsedBundle, c: ObservedColumn, k: string)
    requires Keyed(g) && Admitted(allow, b) && c in b.IterColumns() && IndexedTo(Index(g), c, k)
    ensures var found := ResolvedColumn(Loaded(allow, g, b), c.system, c.table, c.name);
            var last := LastCarrier(b.entities, KeyOf(c));
            found.Some? ==>
              exists hit :: hit in found.value.metrics && hit.metric.id == Metric(k)
                && (last >= 0 ==> exists v :: v in hit.appliesTo && v.id == Entity(b.entities[last].uid))
  {
    var after, e := Loaded(allow, g, b), Measures(c.system, c.table, c.name, k);
    assert e in after.edges.cells && Metric(k) in after.nodes.cells by {
      MeasuresStored(allow, g, b, c, k);
      IndexedMetricStored(allow, g, b, Casefold(c.name));
    }
    var v := NodeView(Metric(k), after.nodes.cells[Metric(k)]);
    assert MetricKeyOf(v) == k by { IndexedMetricStored(allow, g, b, Casefold(c.name)); }
    StoredEdgeIsNeighbor(after, e);
    HitIsListed(after, c.system, c.table, c.name, Neighbor(v, after.edges.cells[e]));
    assert Hit(after, v).metric.id == Metric(k);
    if LastCarrier(b.entities, KeyOf(c)) >= 0 {
      OwnerIsShown(allow, g, b, c, k);
    }
  }

  lemma MeasuresStored(allow: Allow, g: Graph, b: ParsedBundle, c: ObservedColumn, k: string)
    requires Admitted(allow, b) && c in b.IterColumns() && IndexedTo(Index(g), c, k)
    ensures Measures(c.system, c.table, c.name, k) in Loaded(allow, g, b).edges.cells
  {
    var e := Measures(c.system, c.table, c.name, k);
    assert MeasuredBy(Index(g), b.IterColumns(), KeyOf(c), k) by {
      var i :| 0 <= i < |b.IterColumns()| && b.IterColumns()[i] == c;
    }
    MeasuresInLinks(Index(g), Owners(b.entities), ProvOf(b), b.IterColumns(), KeyOf(c), k);
    LinksOfLoad(allow, Index(g), b, e);
    StoredAfterAll(g, LoadWrites(allow, Index(g), b), EdgeRef(e));
  }

  lemma AppliesToStored(allow: Allow, g: Graph, b: ParsedBundle, c: ObservedColumn, k: string, uid: string)
    requires Admitted(allow, b) && c in b.IterColumns() && IndexedTo(Index(g), c, k)
    requires KeyOf(c) in Owners(b.entities) && uid == Owners(b.entities)[KeyOf(c)]
    ensures AppliesTo(k, uid) in Loaded(allow, g, b).edges.cells
  {
    assert AppliedBy(Index(g), Owners(b.entities), b.IterColumns(), k, uid) by {
      var i :| 0 <= i < |b.IterColumns()| && b.IterColumns()[i] == c;
    }
    AppliesToInLinks(Index(g), Owners(b.entities), ProvOf(b), b.IterColumns(), k, uid);
    LinksOfLoad(allow, Index(g), b, AppliesTo(k, uid));
    StoredAfterAll(g, LoadWrites(allow, Index(g), b), EdgeRef(AppliesTo(k, uid)));
  }

  lemma EntityStored(allow: Allow, g: Graph, b: ParsedBundle, i: nat)
    requires i < |b.entities|
    ensures Entity(b.entities[i].uid) in Loaded(allow, g, b).nodes.cells
  {
    NodesExactly(allow, g, b, Entity(b.entities[i].uid));
  }

  lemma ColumnStored(allow: Allow, g: Graph, b: ParsedBundle, c: ObservedColumn)
    requires c in b.IterColumns()
    ensures Column(c.system, c.table, c.name) in Loaded(allow, g, b).nodes.cells
  {
    var i :| 0 <= i < |b.IterColumns()| && b.IterColumns()[i] == c;
    NodesExactly(allow, g, b, Column(c.system, c.table, c.name));
  }

  lemma OwnerIsShown(allow: Allow, g: Graph, b: ParsedBundle, c: ObservedColumn, k: string)
    requires Admitted(allow, b) && c in b.IterColumns() && IndexedTo(Index(g), c, k)
    requires LastCarrier(b.entities, KeyOf(c)) >= 0
    ensures exists v :: v in NodesOf(OutNeighbors(Loaded(allow, g, b), Metric(k), "APPLIES_TO"))
                     && v.id == Entity(b.entities[LastCarrier(b.entities, KeyOf(c))].uid)
  {
    var last := LastCarrier(b.entities, KeyOf(c));
    OwnerIsLastCarrier(b.entities, KeyOf(c));
    AppliesToStored(allow, g, b, c, k, b.entities[last].uid);
    EntityStored(allow, g, b, last);
    ShownUnderMetric(Loaded(allow, g, b), k, b.entities[last].uid);
  }

  lemma ShownUnderMetric(g: Graph, k: string, uid: string)
    requires AppliesTo(k, uid) in g.edges.cells && Entity(uid) in g.nodes.cells
    ensures exists v :: v in NodesOf(OutNeighbors(g, Metric(k), "APPLIES_TO")) && v.id == Entity(uid)
  {
    StoredEdgeIsNeighbor(g, AppliesTo(k, uid));
    var n := Neighbor(NodeView(Entity(uid), g.nodes.cells[Entity(uid)]), g.edges.cells[AppliesTo(k, uid)]);
    NeighborIsListed(OutNeighbors(g, Metric(k), "APPLIES_TO"), n);
    assert n.node.id == Entity(uid);
  }

  lemma NeighborIsListed(ns: seq<Neighbor>, n: Neighbor)
    requires n in ns
    ensures n.node in NodesOf(ns)
  {
    var i :| 0 <= i < |ns| && ns[i] == n;
    assert NodesOf(ns)[i] == n.node;
  }
}
