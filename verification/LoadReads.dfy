/** What a load leaves for a reader: the attributes of its entities, and its edges as they are
    followed from their sources. */
module LoadReads {
  import opened Wrappers
  import opened Graphs
  import opened GraphLaws
  import opened Client
  import opened WriteLaws
  import opened Ir
  import opened Pipeline
  import opened LoadLaws
  import opened LoadValues

  // ---- Entities ----------------------------------------------------------------------------

  /** The value that the last record to give it gives an attribute. */
  function LastAttribute(entities: seq<ObservedEntity>, uid: string, p: string): Option<Value> {
    if entities == [] then None else
      var e := entities[|entities| - 1];
      if e.uid == uid && p in e.attributes && e.attributes[p] != Null then Some(e.attributes[p])
      else LastAttribute(entities[..|entities| - 1], uid, p)
  }

  lemma {:induction false} NetAttributes(allow: Allow, entities: seq<ObservedEntity>, uid: string, p: string)
    ensures var net, last := Net(Gather(EntityWriter(allow), entities), NodeRef(Entity(uid))).props,
                             LastAttribute(entities, uid, p);
            (p in net <==> last.Some?) && (last.Some? ==> net[p] == last.value)
  {
    if entities != [] {
      var init, e := entities[..|entities| - 1], entities[|entities| - 1];
      NetAttributes(allow, init, uid, p);
      NetOfEntity(allow, e, uid);
      NetConcat(Gather(EntityWriter(allow), init), EntityWriter(allow)(e), NodeRef(Entity(uid)));
      CleanExactly(e.attributes, p);
    }
  }

  /** An attribute of a loaded entity has the last value its records give it, or the one it had. */
  lemma EntityAttributes(allow: Allow, g: Graph, b: ParsedBundle, uid: string, p: string)
    requires exists i :: 0 <= i < |b.entities| && b.entities[i].uid == uid
    ensures Read(Loaded(allow, g, b), Entity(uid), p)
         == if LastAttribute(b.entities, uid, p).Some? then LastAttribute(b.entities, uid, p)
            else Kept(g, Entity(uid), p)
  {
    var r, ws := NodeRef(Entity(uid)), LoadWrites(allow, Index(g), b);
    NetAtEntity(allow, Index(g), b, uid);
    NetAttributes(allow, b.entities, uid, p);
    assert NamesEntity(b.entities, r);
    NodesExactly(allow, g, b, r.node);
    FindAfterAll(g, ws, r);
    if !Targets(ws, r) { NetUntargeted(ws, r); }
    IdentityStored(Entity(uid));
  }

  // ---- Edges -------------------------------------------------------------------------------

  /** The provenance that every edge of the bundle carries. */
  function BundleStamp(b: ParsedBundle): EdgeProvenance {
    EdgeProvenance(b.provenance.sourceRef, b.provenance.fetchedAt, b.provenance.connectorVersion)
  }

  /** An edge that the load writes leads from its source to its target. */
  lemma WrittenLeads(allow: Allow, g: Graph, b: ParsedBundle, e: EdgeId)
    requires Targets(LoadWrites(allow, Index(g), b), EdgeRef(e))
    ensures Leads(Loaded(allow, g, b), e.src, e.rel, e.dst, e.role, BundleStamp(b))
  {
    LoadedProvenance(allow, g, b, e);
    StoredAfterAll(g, LoadWrites(allow, Index(g), b), EdgeRef(e));
    StoredLeads(Loaded(allow, g, b), e, BundleStamp(b));
  }

  /** The type a relation is stored under: its own when it gives one, or the generic one. */
  function StoredType(rel: ObservedRelation): string {
    match rel.relType
    case Some(t) => if t == "" then "RELATED_TO" else t
    case None => "RELATED_TO"
  }

  /** The edge leads from the relation's subject to its object, under its type and role. */
  predicate Relates(e: EdgeId, rel: ObservedRelation) {
    && e.src == Entity(rel.subjectUid) && e.dst == Entity(rel.objectUid)
    && e.role == Some(rel.role) && e.rel == StoredType(rel)
  }

  lemma RelatesIsEdge(e: EdgeId, rel: ObservedRelation)
    ensures Relates(e, rel) <==> e == RelationEdge(rel)
  {
  }

  predicate Permitted(allow: Allow, rel: ObservedRelation) {
    StoredType(rel) == "RELATED_TO" || StoredType(rel) in allow.edgeTypes
  }

  /** The relation at `i` and all before it have permitted types. */
  predicate PermittedUpTo(allow: Allow, rels: seq<ObservedRelation>, i: nat)
    requires i < |rels|
  {
    forall j :: 0 <= j <= i ==> Permitted(allow, rels[j])
  }

  lemma PermittedIsAdmitted(allow: Allow, rels: seq<ObservedRelation>, i: nat)
    requires i < |rels|
    ensures i < AdmittedCount(allow, rels) <==> PermittedUpTo(allow, rels, i)
  {
    forall j | 0 <= j < |rels| ensures Permitted(allow, rels[j]) <==> Admits(allow, rels[j]) {}
  }

  lemma RelationsSpelled(allow: Allow, rels: seq<ObservedRelation>, e: EdgeId)
    ensures NamesRelation(rels[..AdmittedCount(allow, rels)], EdgeRef(e)) <==>
            exists i :: 0 <= i < |rels| && PermittedUpTo(allow, rels, i) && Relates(e, rels[i])
  {
    var part := rels[..AdmittedCount(allow, rels)];
    if i :| 0 <= i < |part| && EdgeRef(e) == EdgeRef(RelationEdge(part[i])) {
      PermittedIsAdmitted(allow, rels, i);
      RelatesIsEdge(e, rels[i]);
    }
    if i :| 0 <= i < |rels| && PermittedUpTo(allow, rels, i) && Relates(e, rels[i]) {
      PermittedIsAdmitted(allow, rels, i);
      RelatesIsEdge(e, part[i]);
    }
  }

  /** The edges out of entities after a load are those of before and those of its relations, up to
      the first whose type no pack permits. */
  lemma RelationsExactly(allow: Allow, g: Graph, b: ParsedBundle, e: EdgeId)
    requires e.src.Entity?
    ensures e in Loaded(allow, g, b).edges.cells <==>
            || e in g.edges.cells
            || exists i :: 0 <= i < |b.relations| && PermittedUpTo(allow, b.relations, i) && Relates(e, b.relations[i])
  {
    var r, ws := EdgeRef(e), LoadWrites(allow, Index(g), b);
    assert Targets(ws, r) <==> NamesRelation(b.relations[..AdmittedCount(allow, b.relations)], r) by {
      RecordsExactly(allow, b, r);
      TargetsConcat(RecordWrites(allow, b), ResolutionWrites(allow, Index(g), b), r);
      NoLinkFromEntity(allow, Index(g), b, e);
      FromDocumentOrMetric(b.documents, e);
    }
    StoredAfterAll(g, ws, r);
    RelationsSpelled(allow, b.relations, e);
  }

  lemma FromDocumentOrMetric(documents: seq<ObservedDocument>, e: EdgeId)
    ensures NamesDocumentEdge(documents, EdgeRef(e)) ==> e.src.Document? || e.src.Metric?
  {
  }

  lemma NoLinkFromEntity(allow: Allow, index: map<string, string>, b: ParsedBundle, e: EdgeId)
    requires e.src.Entity?
    ensures !Targets(ResolutionWrites(allow, index, b), EdgeRef(e))
  {
    GatherTargets(LinkWriter(index, Owners(b.entities), ProvOf(b)), b.IterColumns(), EdgeRef(e));
    forall c { ColumnLinks(index, Owners(b.entities), ProvOf(b), c, EdgeRef(e)); }
  }

  /** Each permitted relation can be followed from its subject to its object. */
  lemma RelationRead(allow: Allow, g: Graph, b: ParsedBundle, i: nat)
    requires i < |b.relations| && PermittedUpTo(allow, b.relations, i)
    ensures var rel := b.relations[i];
            Leads(Loaded(allow, g, b), Entity(rel.subjectUid), StoredType(rel), Entity(rel.objectUid), Some(rel.role),
                  BundleStamp(b))
  {
    var n, e := AdmittedCount(allow, b.relations), RelationEdge(b.relations[i]);
    PermittedIsAdmitted(allow, b.relations, i);
    assert b.relations[..n][i] == b.relations[i];
    RecordsExactly(allow, b, EdgeRef(e));
    TargetsConcat(RecordWrites(allow, b), ResolutionWrites(allow, Index(g), b), EdgeRef(e));
    RelatesIsEdge(e, b.relations[i]);
    WrittenLeads(allow, g, b, e);
  }

  /** Each document leads to the entities it describes, and each metric it defines leads to it. */
  lemma DocumentRead(allow: Allow, g: Graph, b: ParsedBundle, i: nat, j: nat)
    requires i < |b.documents|
    ensures var d, after := b.documents[i], Loaded(allow, g, b);
            && (j < |d.describes| ==>
                  Leads(after, Document(d.uri), "DESCRIBES", Entity(d.describes[j]), None, BundleStamp(b)))
            && (j < |d.defines| ==>
                  Leads(after, Metric(d.defines[j]), "DEFINED_IN", Document(d.uri), None, BundleStamp(b)))
  {
    var d := b.documents[i];
    if j < |d.describes| {
      DocumentEdgeRead(allow, g, b, i, EdgeId("DESCRIBES", Document(d.uri), Entity(d.describes[j]), None));
    }
    if j < |d.defines| {
      DocumentEdgeRead(allow, g, b, i, EdgeId("DEFINED_IN", Metric(d.defines[j]), Document(d.uri), None));
    }
  }

  lemma DocumentEdgeRead(allow: Allow, g: Graph, b: ParsedBundle, i: nat, e: EdgeId)
    requires i < |b.documents|
    requires || DescribedBy(b.documents[i].uri, b.documents[i].describes, EdgeRef(e))
             || DefinedBy(b.documents[i].uri, b.documents[i].defines, EdgeRef(e))
    ensures Leads(Loaded(allow, g, b), e.src, e.rel, e.dst, e.role, BundleStamp(b))
  {
    assert NamesDocumentEdge(b.documents, EdgeRef(e));
    RecordsExactly(allow, b, EdgeRef(e));
    TargetsConcat(RecordWrites(allow, b), ResolutionWrites(allow, Index(g), b), EdgeRef(e));
    WrittenLeads(allow, g, b, e);
  }

  /** Each auto-linked column leads to its metric, and that metric to the last entity of the bundle
      that carries the column. */
  lemma LinkRead(allow: Allow, g: Graph, b: ParsedBundle, i: nat, k: string)
    requires i < |b.IterColumns()| && Admitted(allow, b) && IndexedTo(Index(g), b.IterColumns()[i], k)
    ensures var c, after := b.IterColumns()[i], Loaded(allow, g, b);
            && Leads(after, Column(c.system, c.table, c.name), "MEASURES", Metric(k), None, BundleStamp(b))
            && forall last :: LastWith(b.entities, c, last) ==>
                 Leads(after, Metric(k), "APPLIES_TO", Entity(b.entities[last].uid), None, BundleStamp(b))
  {
    var c := b.IterColumns()[i];
    LinkWritten(allow, g, b, i, k, Measures(c.system, c.table, c.name, k));
    WrittenLeads(allow, g, b, Measures(c.system, c.table, c.name, k));
    forall last | LastWith(b.entities, c, last)
      ensures Leads(Loaded(allow, g, b), Metric(k), "APPLIES_TO", Entity(b.entities[last].uid), None, BundleStamp(b))
    {
      LastIsOwner(b.entities, c, last);
      LinkWritten(allow, g, b, i, k, AppliesTo(k, b.entities[last].uid));
      WrittenLeads(allow, g, b, AppliesTo(k, b.entities[last].uid));
    }
  }

  /** The entity at `last` carries a column of that system, table and name, and no later one does. */
  predicate LastWith(entities: seq<ObservedEntity>, c: ObservedColumn, last: int) {
    && 0 <= last < |entities| && With(entities[last], c)
    && forall j :: last < j < |entities| ==> !With(entities[j], c)
  }

  predicate With(e: ObservedEntity, c: ObservedColumn) {
    exists d :: d in e.columns && d.system == c.system && d.table == c.table && d.name == c.name
  }

  lemma LastIsOwner(entities: seq<ObservedEntity>, c: ObservedColumn, last: int)
    requires LastWith(entities, c, last)
    ensures KeyOf(c) in Owners(entities) && Owners(entities)[KeyOf(c)] == entities[last].uid
  {
    forall e: ObservedEntity ensures With(e, c) <==> Carries(e, KeyOf(c)) {
      if d :| d in e.columns && d.system == c.system && d.table == c.table && d.name == c.name {
        assert KeyOf(d) == KeyOf(c);
      }
      if d :| d in e.columns && KeyOf(d) == KeyOf(c) {
        assert d.system == c.system && d.table == c.table && d.name == c.name;
      }
    }
    OwnerIsLastCarrier(entities, KeyOf(c));
  }

  lemma LinkWritten(allow: Allow, g: Graph, b: ParsedBundle, i: nat, k: string, e: EdgeId)
    requires i < |b.IterColumns()| && Admitted(allow, b) && IndexedTo(Index(g), b.IterColumns()[i], k)
    requires var c, owners := b.IterColumns()[i], Owners(b.entities);
             || e == Measures(c.system, c.table, c.name, k)
             || (KeyOf(c) in owners && e == AppliesTo(k, owners[KeyOf(c)]))
    ensures Targets(LoadWrites(allow, Index(g), b), EdgeRef(e))
  {
    var f := LinkWriter(Index(g), Owners(b.entities), ProvOf(b));
    ColumnLinks(Index(g), Owners(b.entities), ProvOf(b), b.IterColumns()[i], EdgeRef(e));
    GatherTargets(f, b.IterColumns(), EdgeRef(e));
    NoneRejected(allow, b);
    TargetsConcat(RecordWrites(allow, b), ResolutionWrites(allow, Index(g), b), EdgeRef(e));
  }
}
