/** When one load into the store whose edge writes need both endpoints is enough. */
module OnePass {
  import opened Wrappers
  import opened Graphs
  import opened GraphLaws
  import opened Client
  import opened Ir
  import opened Pipeline
  import opened StrictStore
  import opened LoadLaws
  import opened LoadValues

  // ---- Which edge writes take effect -------------------------------------------------------

  lemma {:induction false} StrictConcat(g: Graph, vs: seq<Write>, ws: seq<Write>)
    ensures StrictAll(g, vs + ws) == StrictAll(StrictAll(g, vs), ws)
    ensures Executed(g, vs + ws) == Executed(g, vs) + Executed(StrictAll(g, vs), ws)
  {
    if ws == [] {
      assert vs + ws == vs;
    } else {
      var all, init, w := vs + ws, ws[..|ws| - 1], ws[|ws| - 1];
      assert all[..|all| - 1] == vs + init && all[|all| - 1] == w;
      StrictConcat(g, vs, init);
      Associative(Executed(g, vs), Executed(StrictAll(g, vs), init), [w]);
    }
  }

  lemma {:induction false} NodesStay(h: Graph, ws: seq<Write>)
    ensures h.nodes.cells.Keys <= StrictAll(h, ws).nodes.cells.Keys
  {
    if ws != [] { NodesStay(h, ws[..|ws| - 1]); }
  }

  /** An edge one of whose endpoints is still missing in the end was never written. */
  lemma NotThere(g: Graph, ws: seq<Write>, e: EdgeId)
    requires !BothEnds(StrictAll(g, ws), e)
    ensures !Targets(Executed(g, ws), EdgeRef(e))
  {
    if Targets(Executed(g, ws), EdgeRef(e)) {
      var w := MemberTargets(Executed(g, ws), EdgeRef(e));
      EffectiveEnds(g, ws, w);
    }
  }

  /** An edge whose endpoints are there from the start is written whenever it is asked for. */
  lemma {:induction false} ThereAlready(h: Graph, ws: seq<Write>, e: EdgeId)
    requires BothEnds(h, e)
    ensures Targets(Executed(h, ws), EdgeRef(e)) <==> Targets(ws, EdgeRef(e))
  {
    if ws != [] {
      var init, w := ws[..|ws| - 1], ws[|ws| - 1];
      ThereAlready(h, init, e);
      NodesStay(h, init);
      TargetsOne(w, EdgeRef(e));
      var now := if Effective(StrictAll(h, init), w) then [w] else [];
      assert Executed(h, ws) == Executed(h, init) + now;
      TargetsConcat(Executed(h, init), now, EdgeRef(e));
    }
  }

  // ---- Edges of documents ------------------------------------------------------------------

  /** The endpoint of an edge at a document that is not the document. */
  function OtherEnd(e: EdgeId): NodeId { if e.src.Document? then e.dst else e.src }

  lemma DocumentOnce(h: Graph, prov: EdgeProvenance, d: ObservedDocument, e: EdgeId)
    requires DescribedBy(d.uri, d.describes, EdgeRef(e)) || DefinedBy(d.uri, d.defines, EdgeRef(e))
    requires OtherEnd(e) in h.nodes.cells
    ensures Targets(Executed(h, DocumentWriter(prov)(d)), EdgeRef(e))
  {
    var r, head := EdgeRef(e), Effect(UpsertDocument(d.uri, d.title, d.text, d.asOf));
    var describes := Gather(DescribesWriter(d.uri, prov), d.describes);
    var defines := Gather(DefinesWriter(d.uri, prov), d.defines);
    Associative([head], describes, defines);
    DescribesTarget(d.uri, prov, d.describes, r);
    DefinesTarget(d.uri, prov, d.defines, r);
    TargetsConcat(describes, defines, r);
    HeadStored(h, head, Document(d.uri));
    ThereAlready(StrictAll(h, [head]), describes + defines, e);
    EitherPart(h, [head], describes + defines, r);
  }

  lemma HeadStored(h: Graph, head: Write, n: NodeId)
    requires head.ref == NodeRef(n)
    ensures StrictAll(h, [head]).nodes.cells.Keys == h.nodes.cells.Keys + {n}
  {
    assert [head][..0] == [];
    assert StrictAll(h, [head]) == Apply(h, head);
  }

  lemma DocumentEdgeLast(documents: seq<ObservedDocument>, r: Ref)
    requires NamesDocumentEdge(documents, r) && !NamesDocumentEdge(documents[..|documents| - 1], r)
    ensures var d := documents[|documents| - 1];
            DescribedBy(d.uri, d.describes, r) || DefinedBy(d.uri, d.defines, r)
  {
    var init := documents[..|documents| - 1];
    assert forall i :: 0 <= i < |init| ==> init[i] == documents[i];
  }

  lemma {:induction false} DocumentsOnce(h: Graph, prov: EdgeProvenance, documents: seq<ObservedDocument>, e: EdgeId)
    requires NamesDocumentEdge(documents, EdgeRef(e)) && OtherEnd(e) in h.nodes.cells
    ensures Targets(Executed(h, Gather(DocumentWriter(prov), documents)), EdgeRef(e))
  {
    var init, d := documents[..|documents| - 1], documents[|documents| - 1];
    var before := Gather(DocumentWriter(prov), init);
    if NamesDocumentEdge(init, EdgeRef(e)) {
      DocumentsOnce(h, prov, init, e);
    } else {
      DocumentEdgeLast(documents, EdgeRef(e));
      NodesStay(h, before);
      DocumentOnce(StrictAll(h, before), prov, d, e);
    }
    EitherPart(h, before, DocumentWriter(prov)(d), EdgeRef(e));
  }

  lemma EitherPart(h: Graph, vs: seq<Write>, ws: seq<Write>, r: Ref)
    ensures Targets(Executed(h, vs + ws), r) <==>
            Targets(Executed(h, vs), r) || Targets(Executed(StrictAll(h, vs), ws), r)
  {
    StrictConcat(h, vs, ws);
    TargetsConcat(Executed(h, vs), Executed(StrictAll(h, vs), ws), r);
  }

  // ---- Edges of a load ---------------------------------------------------------------------

  /** A document of the bundle describes an entity that the bundle brings and that is not
      stored yet. */
  predicate LinksAhead(g: Graph, b: ParsedBundle) {
    exists i, j :: 0 <= i < |b.documents| && 0 <= j < |b.documents[i].describes|
      && Ahead(g, b, b.documents[i].describes[j])
  }

  predicate Ahead(g: Graph, b: ParsedBundle, uid: string) {
    NamesEntity(b.entities, NodeRef(Entity(uid))) && Entity(uid) !in g.nodes.cells
  }

  /** The edge such a link asks for. */
  predicate Missed(g: Graph, b: ParsedBundle, e: EdgeId) {
    e.src.Document? && e.dst.Entity? && e.dst !in g.nodes.cells && NamesDocumentEdge(b.documents, EdgeRef(e))
  }

  function DocumentPart(b: ParsedBundle): seq<Write> { Gather(DocumentWriter(ProvOf(b)), b.documents) }

  function NodePart(allow: Allow, b: ParsedBundle): seq<Write> {
    Gather(ColumnWriter(), b.columns) + Gather(EntityWriter(allow), b.entities)
  }

  function EdgePart(allow: Allow, index: map<string, string>, b: ParsedBundle): seq<Write> {
    Gather(RelationWriter(ProvOf(b)), b.relations[..AdmittedCount(allow, b.relations)])
      + ResolutionWrites(allow, index, b)
  }

  lemma LoadParts(allow: Allow, index: map<string, string>, b: ParsedBundle)
    ensures LoadWrites(allow, index, b) == DocumentPart(b) + (NodePart(allow, b) + EdgePart(allow, index, b))
    ensures LoadWrites(allow, index, b) == (DocumentPart(b) + NodePart(allow, b)) + EdgePart(allow, index, b)
  {
    var d, c, e := DocumentPart(b), Gather(ColumnWriter(), b.columns), Gather(EntityWriter(allow), b.entities);
    var rels := Gather(RelationWriter(ProvOf(b)), b.relations[..AdmittedCount(allow, b.relations)]);
    Associative(d, c, e);
    Associative(d + (c + e), rels, ResolutionWrites(allow, index, b));
    Associative(d, c + e, rels + ResolutionWrites(allow, index, b));
  }

  lemma NodePartTargets(allow: Allow, b: ParsedBundle, e: EdgeId)
    ensures !Targets(NodePart(allow, b), EdgeRef(e))
  {
    ColumnsTarget(b.columns, EdgeRef(e));
    EntitiesTarget(allow, b.entities, EdgeRef(e));
    TargetsConcat(Gather(ColumnWriter(), b.columns), Gather(EntityWriter(allow), b.entities), EdgeRef(e));
  }

  lemma EdgePartTargets(allow: Allow, index: map<string, string>, b: ParsedBundle, r: Ref)
    ensures r.NodeRef? ==> !Targets(EdgePart(allow, index, b), r)
    ensures r.EdgeRef? && (r.edge.src.Document? || r.edge.dst.Document?) ==> !Targets(EdgePart(allow, index, b), r)
  {
    var n := AdmittedCount(allow, b.relations);
    RelationsTarget(ProvOf(b), b.relations[..n], r);
    GatherTargets(LinkWriter(index, Owners(b.entities), ProvOf(b)), b.IterColumns(), r);
    forall c { ColumnLinks(index, Owners(b.entities), ProvOf(b), c, r); }
    TargetsConcat(Gather(RelationWriter(ProvOf(b)), b.relations[..n]), ResolutionWrites(allow, index, b), r);
  }

  lemma SubseqUntargeted(g: Graph, ws: seq<Write>, r: Ref)
    requires !Targets(ws, r)
    ensures !Targets(Executed(g, ws), r)
  {
    StrictIsExecuted(g, ws);
    if Targets(Executed(g, ws), r) {
      var w := MemberTargets(Executed(g, ws), r);
      TargetsMember(ws, w);
    }
  }

  /** A document edge takes effect in the first pass unless its entity comes later. */
  lemma DocumentEdgeOnce(allow: Allow, g: Graph, b: ParsedBundle, e: EdgeId)
    requires NamesDocumentEdge(b.documents, EdgeRef(e)) && BothEnds(Loaded(allow, g, b), e)
    ensures Targets(Executed(g, LoadWrites(allow, Index(g), b)), EdgeRef(e)) <==> !Missed(g, b, e)
  {
    var r, docs, rest := EdgeRef(e), DocumentPart(b), NodePart(allow, b) + EdgePart(allow, Index(g), b);
    LoadParts(allow, Index(g), b);
    EitherPart(g, docs, rest, r);
    if Missed(g, b, e) {
      EntityNotYet(g, b, e.dst);
      NotThere(g, docs, e);
      NodePartTargets(allow, b, e);
      EdgePartTargets(allow, Index(g), b, r);
      TargetsConcat(NodePart(allow, b), EdgePart(allow, Index(g), b), r);
      SubseqUntargeted(StrictAll(g, docs), rest, r);
    } else {
      OtherEndThere(allow, g, b, e);
      DocumentsOnce(g, ProvOf(b), b.documents, e);
    }
  }

  lemma EntityNotYet(g: Graph, b: ParsedBundle, n: NodeId)
    requires n.Entity? && n !in g.nodes.cells
    ensures n !in StrictAll(g, DocumentPart(b)).nodes.cells
  {
    SameNodes(g, g, DocumentPart(b));
    StoredAfterAll(g, DocumentPart(b), NodeRef(n));
    DocumentsTarget(ProvOf(b), b.documents, NodeRef(n));
  }

  lemma OtherEndThere(allow: Allow, g: Graph, b: ParsedBundle, e: EdgeId)
    requires NamesDocumentEdge(b.documents, EdgeRef(e)) && BothEnds(Loaded(allow, g, b), e) && !Missed(g, b, e)
    ensures OtherEnd(e) in g.nodes.cells
  {
    if !e.src.Document? { NodesExactly(allow, g, b, e.src); }
  }

  /** Every other edge of a load takes effect in the first pass as soon as its endpoints are
      among the nodes the load leaves. */
  lemma LaterEdgeOnce(allow: Allow, g: Graph, b: ParsedBundle, e: EdgeId)
    requires !NamesDocumentEdge(b.documents, EdgeRef(e)) && BothEnds(Loaded(allow, g, b), e)
    ensures Targets(Executed(g, LoadWrites(allow, Index(g), b)), EdgeRef(e))
        <==> Targets(LoadWrites(allow, Index(g), b), EdgeRef(e))
  {
    var r, nodes, edges := EdgeRef(e), DocumentPart(b) + NodePart(allow, b), EdgePart(allow, Index(g), b);
    LoadParts(allow, Index(g), b);
    EitherPart(g, nodes, edges, r);
    TargetsConcat(nodes, edges, r);
    DocumentsTarget(ProvOf(b), b.documents, r);
    NodePartTargets(allow, b, e);
    TargetsConcat(DocumentPart(b), NodePart(allow, b), r);
    SubseqUntargeted(g, nodes, r);
    NodesBeforeEdges(allow, g, b, e.src);
    NodesBeforeEdges(allow, g, b, e.dst);
    ThereAlready(StrictAll(g, nodes), edges, e);
  }

  lemma NodesBeforeEdges(allow: Allow, g: Graph, b: ParsedBundle, n: NodeId)
    ensures n in StrictAll(g, DocumentPart(b) + NodePart(allow, b)).nodes.cells
            <==> n in Loaded(allow, g, b).nodes.cells
  {
    var nodes, edges := DocumentPart(b) + NodePart(allow, b), EdgePart(allow, Index(g), b);
    LoadParts(allow, Index(g), b);
    SameNodes(g, g, nodes);
    StoredAfterAll(g, nodes, NodeRef(n));
    StoredAfterAll(g, LoadWrites(allow, Index(g), b), NodeRef(n));
    TargetsConcat(nodes, edges, NodeRef(n));
    EdgePartTargets(allow, Index(g), b, NodeRef(n));
  }

  // ---- One pass ----------------------------------------------------------------------------

  /** What one strict load leaves of an edge. */
  lemma EdgeAfterOnePass(allow: Allow, g: Graph, b: ParsedBundle, e: EdgeId)
    ensures var ws := LoadWrites(allow, Index(g), b);
            Find(StrictAll(g, ws), EdgeRef(e))
              == if Targets(Executed(g, ws), EdgeRef(e))
                 then Some(Merge(At(g, EdgeRef(e)), Cell({}, ProvenanceProps(ProvOf(b))))) else Find(g, EdgeRef(e))
  {
    var ws := LoadWrites(allow, Index(g), b);
    LoadStamped(allow, Index(g), b);
    StrictIsExecuted(g, ws);
    NetStamped(Executed(g, ws), ProvOf(b), e);
    FindAfterAll(g, Executed(g, ws), EdgeRef(e));
  }

  lemma EdgeAfterLoad(allow: Allow, g: Graph, b: ParsedBundle, e: EdgeId)
    ensures Find(Loaded(allow, g, b), EdgeRef(e))
         == if Targets(LoadWrites(allow, Index(g), b), EdgeRef(e))
            then Some(Merge(At(g, EdgeRef(e)), Cell({}, ProvenanceProps(ProvOf(b))))) else Find(g, EdgeRef(e))
  {
    LoadStamped(allow, Index(g), b);
    NetStamped(LoadWrites(allow, Index(g), b), ProvOf(b), e);
    FindAfterAll(g, LoadWrites(allow, Index(g), b), EdgeRef(e));
  }

  /** One edge after one pass: what the permissive load leaves of it, if both ends are stored
      in the end, unless the link came before its entity. */
  lemma OneEdgeExactly(allow: Allow, g: Graph, b: ParsedBundle, e: EdgeId)
    requires NoDangling(g)
    ensures var once, whole := StrictAll(g, LoadWrites(allow, Index(g), b)), Loaded(allow, g, b);
            Find(once, EdgeRef(e)) == if BothEnds(whole, e) && !Missed(g, b, e) then Find(whole, EdgeRef(e)) else None
  {
    var ws, whole := LoadWrites(allow, Index(g), b), Loaded(allow, g, b);
    EdgeAfterOnePass(allow, g, b, e);
    EdgeAfterLoad(allow, g, b, e);
    SameNodes(g, g, ws);
    NodesStay(g, ws);
    if !BothEnds(whole, e) {
      NotThere(g, ws, e);
    } else if NamesDocumentEdge(b.documents, EdgeRef(e)) {
      DocumentEdgeOnce(allow, g, b, e);
      DocumentEdgeTargeted(allow, g, b, e);
    } else {
      LaterEdgeOnce(allow, g, b, e);
    }
  }

  lemma DocumentEdgeTargeted(allow: Allow, g: Graph, b: ParsedBundle, e: EdgeId)
    requires NamesDocumentEdge(b.documents, EdgeRef(e))
    ensures Targets(LoadWrites(allow, Index(g), b), EdgeRef(e))
  {
    RecordsExactly(allow, b, EdgeRef(e));
    TargetsConcat(RecordWrites(allow, b), ResolutionWrites(allow, Index(g), b), EdgeRef(e));
  }

  lemma AheadIsMissed(allow: Allow, g: Graph, b: ParsedBundle) returns (e: EdgeId)
    requires LinksAhead(g, b)
    ensures Missed(g, b, e) && BothEnds(Loaded(allow, g, b), e) && Present(Loaded(allow, g, b), EdgeRef(e))
  {
    var i, j :| 0 <= i < |b.documents| && 0 <= j < |b.documents[i].describes|
      && Ahead(g, b, b.documents[i].describes[j]);
    var d, uid := b.documents[i], b.documents[i].describes[j];
    e := Describes(d.uri, uid);
    assert DescribedBy(d.uri, d.describes, EdgeRef(e));
    assert NamesDocument(b.documents, NodeRef(Document(d.uri)));
    NodesExactly(allow, g, b, e.src);
    NodesExactly(allow, g, b, e.dst);
    DocumentEdgeTargeted(allow, g, b, e);
    StoredAfterAll(g, LoadWrites(allow, Index(g), b), EdgeRef(e));
  }

  lemma MissedIsAhead(allow: Allow, g: Graph, b: ParsedBundle, e: EdgeId)
    requires Missed(g, b, e) && BothEnds(Loaded(allow, g, b), e)
    ensures LinksAhead(g, b)
  {
    NodesExactly(allow, g, b, e.dst);
    var i :| 0 <= i < |b.documents| && (DescribedBy(b.documents[i].uri, b.documents[i].describes, EdgeRef(e))
                                        || DefinedBy(b.documents[i].uri, b.documents[i].defines, EdgeRef(e)));
    var d := b.documents[i];
    var j :| 0 <= j < |d.describes| && EdgeRef(e) == EdgeRef(Describes(d.uri, d.describes[j]));
    assert Ahead(g, b, b.documents[i].describes[j]);
  }

  /** One strict load leaves the nodes of one permissive load, and exactly its edges with both
      endpoints stored, if and only if no document of the bundle describes an entity that the
      same bundle brings and that is not stored yet. */
  lemma OneLoadExactly(allow: Allow, g: Graph, b: ParsedBundle)
    requires NoDangling(g)
    ensures var once := StrictAll(g, LoadWrites(allow, Index(g), b));
            && once.nodes == Loaded(allow, g, b).nodes
            && (once.edges.cells == Anchored(Loaded(allow, g, b)) <==> !LinksAhead(g, b))
  {
    var ws, whole := LoadWrites(allow, Index(g), b), Loaded(allow, g, b);
    var once := StrictAll(g, ws);
    SameNodes(g, g, ws);
    if LinksAhead(g, b) {
      var e := AheadIsMissed(allow, g, b);
      OneEdgeExactly(allow, g, b, e);
      assert e in Anchored(whole) && Find(once, EdgeRef(e)) == None;
    } else {
      forall e: EdgeId
        ensures Find(once, EdgeRef(e)) == if BothEnds(whole, e) then Find(whole, EdgeRef(e)) else None
      {
        OneEdgeExactly(allow, g, b, e);
        if Missed(g, b, e) && BothEnds(whole, e) { MissedIsAhead(allow, g, b, e); }
      }
      EdgeMapsEqual(once, whole);
    }
  }

  /** Equivalently: the second load changes nothing. */
  lemma SecondLoadIdle(allow: Allow, g: Graph, b: ParsedBundle)
    requires NoDangling(g)
    ensures var once := StrictAll(g, LoadWrites(allow, Index(g), b));
            StrictAll(once, LoadWrites(allow, Index(once), b)) == once <==> !LinksAhead(g, b)
  {
    var ws := LoadWrites(allow, Index(g), b);
    var once := StrictAll(g, ws);
    OneLoadExactly(allow, g, b);
    LoadKeepsMetrics(allow, g, b);
    NodesDecideIndex(once, Loaded(allow, g, b));
    TwoPassConvergence(g, ws);
    if !LinksAhead(g, b) { SameEdgesSameOrder(once, ws); }
  }

  /** A pass that adds no edge keeps their order. */
  lemma SameEdgesSameOrder(h: Graph, ws: seq<Write>)
    requires StrictAll(h, ws).nodes == h.nodes && StrictAll(h, ws).edges.cells == h.edges.cells
    ensures StrictAll(h, ws) == h
  {
    var done := Executed(h, ws);
    StrictIsExecuted(h, ws);
    AllPresent(h, done);
    forall w | w in done ensures Present(h, w.ref) {
      assert Present(ApplyAll(h, done), w.ref);
    }
    OrderKept(h, done);
  }

  /** One such bundle: a document that describes the entity it comes with, loaded into an empty
      store. The link is missing after one load and there after two. */
  lemma OverviewNeedsTwo(allow: Allow, b: ParsedBundle, d: ObservedDocument, e: ObservedEntity)
    requires b.documents == [d] && b.entities == [e] && b.columns == [] && b.relations == []
    requires d.uri == "doc://parts/overview" && d.describes == ["warehouse.parts"] && e.uid == "warehouse.parts"
    ensures var once := StrictAll(Empty, LoadWrites(allow, Index(Empty), b));
            var twice := StrictAll(once, LoadWrites(allow, Index(once), b));
            var link := Describes(d.uri, e.uid);
            link !in once.edges.cells && link in twice.edges.cells && twice != once
  {
    var link := Describes(d.uri, e.uid);
    assert Ahead(Empty, b, b.documents[0].describes[0]) by { assert b.entities[0].uid == e.uid; }
    assert DescribedBy(b.documents[0].uri, b.documents[0].describes, EdgeRef(link)) by {
      assert b.documents[0].describes[0] == e.uid;
    }
    OverviewLink(allow, b, link);
  }

  lemma OverviewLink(allow: Allow, b: ParsedBundle, link: EdgeId)
    requires LinksAhead(Empty, b) && Missed(Empty, b, link) && NamesEntity(b.entities, NodeRef(link.dst))
    ensures var once := StrictAll(Empty, LoadWrites(allow, Index(Empty), b));
            var twice := StrictAll(once, LoadWrites(allow, Index(once), b));
            link !in once.edges.cells && link in twice.edges.cells
  {
    OneEdgeExactly(allow, Empty, b, link);
    TwoPassLoad(allow, Empty, b);
    DocumentEdgeTargeted(allow, Empty, b, link);
    StoredAfterAll(Empty, LoadWrites(allow, Index(Empty), b), EdgeRef(link));
    MissedDocument(b, link);
    NodesExactly(allow, Empty, b, link.src);
    NodesExactly(allow, Empty, b, link.dst);
  }

  lemma MissedDocument(b: ParsedBundle, e: EdgeId)
    requires Missed(Empty, b, e)
    ensures NamesDocument(b.documents, NodeRef(e.src))
  {
    var i :| 0 <= i < |b.documents| && (DescribedBy(b.documents[i].uri, b.documents[i].describes, EdgeRef(e))
                                        || DefinedBy(b.documents[i].uri, b.documents[i].defines, EdgeRef(e)));
    assert e.src == Document(b.documents[i].uri);
  }
}
