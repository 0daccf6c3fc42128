/** Whole ingest runs into the store whose edge writes need both endpoints. A marked item is never
    loaded again, so a link to an entity that comes later can be lost for good; exactly when. */
module StrictIngest {
  import opened Wrappers
  import opened Graphs
  import opened GraphLaws
  import opened Client
  import opened Ir
  import opened Pipeline
  import opened StrictStore
  import opened LoadLaws
  import opened LoadValues
  import opened OnePass
  import opened Checkpoints
  import opened Ingest

  // ---- Runs as sequences of loads ----------------------------------------------------------

  function Loader(allow: Allow): (Graph, ParsedBundle) -> Graph { (g, b) => Loaded(allow, g, b) }

  function StrictLoader(allow: Allow): (Graph, ParsedBundle) -> Graph {
    (h, b) => StrictAll(h, LoadWrites(allow, Index(h), b))
  }

  /** Bundles loaded one after another into the permissive store. */
  function Loads(allow: Allow, g: Graph, bs: seq<ParsedBundle>): Graph { Fold(Loader(allow), g, bs) }

  /** The same bundles, loaded into the endpoint-checking store. */
  function StrictLoads(allow: Allow, h: Graph, bs: seq<ParsedBundle>): Graph { Fold(StrictLoader(allow), h, bs) }

  function StrictOne(allow: Allow, source: Source, d: Durable, item: WorkItem, times: Times): Durable {
    if item.Key() in d.done then d else
      Durable(StrictLoader(allow)(d.graph, source.Parse(item, TimeOf(times, item))), d.done + {item.Key()})
  }

  /** Uninterrupted ingestion into the endpoint-checking store. */
  function StrictIngested(allow: Allow, source: Source, d: Durable, items: seq<WorkItem>, times: Times): Durable {
    if items == [] then d else
      StrictOne(allow, source, StrictIngested(allow, source, d, items[..|items| - 1], times), items[|items| - 1], times)
  }

  /** What a run loads. */
  function Brought(source: Source, done: set<ItemKey>, items: seq<WorkItem>, times: Times): seq<ParsedBundle> {
    Bundles(source, Pending(done, items), times)
  }

  lemma BroughtStep(source: Source, done: set<ItemKey>, items: seq<WorkItem>, times: Times)
    requires items != []
    ensures var init, item := items[..|items| - 1], items[|items| - 1];
            Brought(source, done, items, times) == Brought(source, done, init, times)
              + if item.Key() in done + Keys(init) then [] else [source.Parse(item, TimeOf(times, item))]
  {
  }

  lemma LoadsSnoc(allow: Allow, g: Graph, bs: seq<ParsedBundle>, b: ParsedBundle)
    ensures Loads(allow, g, bs + [b]) == Loaded(allow, Loads(allow, g, bs), b)
    ensures StrictLoads(allow, g, bs + [b]) == StrictLoader(allow)(StrictLoads(allow, g, bs), b)
  {
    assert (bs + [b])[..|bs|] == bs;
  }

  lemma {:induction false} StrictKeys(allow: Allow, source: Source, d: Durable, items: seq<WorkItem>, times: Times)
    ensures StrictIngested(allow, source, d, items, times).done == d.done + Keys(items)
  {
    if items != [] { StrictKeys(allow, source, d, items[..|items| - 1], times); }
  }

  /** Either run is the sequence of loads of what it brings. */
  lemma {:induction false} RunsAreLoads(allow: Allow, source: Source, d: Durable, items: seq<WorkItem>, times: Times)
    ensures var bs := Brought(source, d.done, items, times);
            && IngestAll(allow, source, d, items, times).graph == Loads(allow, d.graph, bs)
            && StrictIngested(allow, source, d, items, times).graph == StrictLoads(allow, d.graph, bs)
  {
    if items != [] {
      var init, item := items[..|items| - 1], items[|items| - 1];
      RunsAreLoads(allow, source, d, init, times);
      BroughtStep(source, d.done, items, times);
      IngestedKeys(allow, source, d, init, times);
      StrictKeys(allow, source, d, init, times);
      LoadsSnoc(allow, d.graph, Brought(source, d.done, init, times), source.Parse(item, TimeOf(times, item)));
      assert Brought(source, d.done, init, times) + [] == Brought(source, d.done, init, times);
    }
  }

  /** At some position of a fold the test succeeds. */
  ghost predicate SomeStep<S, A>(step: (S, A) -> S, start: S, xs: seq<A>, hit: (S, A) -> bool) {
    exists i :: 0 <= i < |xs| && hit(Fold(step, start, xs[..i]), xs[i])
  }

  lemma SomeStepSnoc<S, A>(step: (S, A) -> S, start: S, init: seq<A>, x: A, hit: (S, A) -> bool)
    ensures SomeStep(step, start, init + [x], hit)
            <==> SomeStep(step, start, init, hit) || hit(Fold(step, start, init), x)
  {
    var xs := init + [x];
    assert xs[..|init|] == init && xs[|init|] == x;
    assert forall i :: 0 <= i < |init| ==> xs[..i] == init[..i] && xs[i] == init[i];
  }

  /** What each step keeps, and newly reaches exactly when its test succeeds, is reached in the end
      exactly when it was there or some test succeeded. */
  lemma {:induction false} ReachedExactly<S(!new), A(!new)>(step: (S, A) -> S, start: S, xs: seq<A>,
                                                            reached: S -> bool, hit: (S, A) -> bool)
    requires forall s, x :: reached(step(s, x)) <==> reached(s) || hit(s, x)
    ensures reached(Fold(step, start, xs)) <==> reached(start) || SomeStep(step, start, xs, hit)
  {
    if xs != [] {
      var init := xs[..|xs| - 1];
      ReachedExactly(step, start, init, reached, hit);
      SomeStepSnoc(step, start, init, xs[|xs| - 1], hit);
      assert init + [xs[|xs| - 1]] == xs;
    }
  }

  /** What each step keeps stays reached. */
  lemma {:induction false} StaysReached<S(!new), A(!new)>(step: (S, A) -> S, start: S, xs: seq<A>, i: nat,
                                                          reached: S -> bool)
    requires forall s, x :: reached(s) ==> reached(step(s, x))
    requires i <= |xs| && reached(Fold(step, start, xs[..i]))
    ensures reached(Fold(step, start, xs))
  {
    if i == |xs| {
      assert xs[..i] == xs;
    } else {
      var init := xs[..|xs| - 1];
      assert init[..i] == xs[..i];
      StaysReached(step, start, init, i, reached);
    }
  }

  // ---- Nodes of a run ----------------------------------------------------------------------

  lemma {:induction false} SameNodesAlong(allow: Allow, g: Graph, bs: seq<ParsedBundle>)
    ensures StrictLoads(allow, g, bs).nodes == Loads(allow, g, bs).nodes
  {
    if bs != [] {
      var init, b := bs[..|bs| - 1], bs[|bs| - 1];
      var p, h := Loads(allow, g, init), StrictLoads(allow, g, init);
      SameNodesAlong(allow, g, init);
      NodesDecideIndex(h, p);
      SameNodes(h, p, LoadWrites(allow, Index(p), b));
    }
  }

  /** The node is no entity, or it is stored or among those that the bundles bring. */
  predicate Known(g: Graph, bs: seq<ParsedBundle>, n: NodeId) {
    n.Entity? ==> n in g.nodes.cells || exists i :: 0 <= i < |bs| && NamesEntity(bs[i].entities, NodeRef(n))
  }

  predicate EndsKnown(g: Graph, bs: seq<ParsedBundle>, e: EdgeId) { Known(g, bs, e.src) && Known(g, bs, e.dst) }

  lemma EntityAfterLoad(allow: Allow, g: Graph, b: ParsedBundle, n: NodeId)
    requires n.Entity?
    ensures n in Loaded(allow, g, b).nodes.cells <==> n in g.nodes.cells || NamesEntity(b.entities, NodeRef(n))
  {
    NodesExactly(allow, g, b, n);
  }

  lemma KnownExactly(allow: Allow, g: Graph, bs: seq<ParsedBundle>, n: NodeId)
    requires n.Entity?
    ensures n in Loads(allow, g, bs).nodes.cells <==> Known(g, bs, n)
  {
    var stored := (g: Graph) => n in g.nodes.cells;
    var names := (g: Graph, b: ParsedBundle) => NamesEntity(b.entities, NodeRef(n));
    forall g, b ensures stored(Loader(allow)(g, b)) <==> stored(g) || names(g, b) {
      EntityAfterLoad(allow, g, b, n);
    }
    ReachedExactly(Loader(allow), g, bs, stored, names);
  }

  /** Loads bring no metrics. */
  lemma MetricsGiven(allow: Allow, g: Graph, bs: seq<ParsedBundle>, n: NodeId)
    requires n.Metric?
    ensures n in Loads(allow, g, bs).nodes.cells <==> n in g.nodes.cells
  {
    var stored, never := (g: Graph) => n in g.nodes.cells, (g: Graph, b: ParsedBundle) => false;
    forall g, b ensures stored(Loader(allow)(g, b)) <==> stored(g) || never(g, b) {
      NodesExactly(allow, g, b, n);
    }
    ReachedExactly(Loader(allow), g, bs, stored, never);
  }

  lemma LoadsStep(allow: Allow, g: Graph, bs: seq<ParsedBundle>, i: nat)
    requires i < |bs|
    ensures Loads(allow, g, bs[..i + 1]) == Loaded(allow, Loads(allow, g, bs[..i]), bs[i])
  {
    assert bs[..i + 1][..i] == bs[..i];
  }

  lemma NodesRemain(allow: Allow, g: Graph, bs: seq<ParsedBundle>, i: nat, n: NodeId)
    requires i <= |bs| && n in Loads(allow, g, bs[..i]).nodes.cells
    ensures n in Loads(allow, g, bs).nodes.cells
  {
    var stored := (g: Graph) => n in g.nodes.cells;
    forall g, b ensures stored(g) ==> stored(Loader(allow)(g, b)) {
      NodesExactly(allow, g, b, n);
    }
    StaysReached(Loader(allow), g, bs, i, stored);
  }

  // ---- One edge along a run ----------------------------------------------------------------

  /** The load asks for the edge, and both ends are there by the time it does. */
  predicate InTime(allow: Allow, p: Graph, b: ParsedBundle, e: EdgeId) {
    Targets(LoadWrites(allow, Index(p), b), EdgeRef(e)) && BothEnds(Loaded(allow, p, b), e) && !Missed(p, b, e)
  }

  lemma InTimeExecuted(allow: Allow, p: Graph, h: Graph, b: ParsedBundle, e: EdgeId)
    requires h.nodes == p.nodes
    ensures Targets(Executed(h, LoadWrites(allow, Index(h), b)), EdgeRef(e)) <==> InTime(allow, p, b, e)
  {
    var ws := LoadWrites(allow, Index(h), b);
    NodesDecideIndex(h, p);
    SameNodes(h, p, ws);
    SameNodes(h, h, ws);
    if !BothEnds(Loaded(allow, p, b), e) {
      NotThere(h, ws, e);
    } else if NamesDocumentEdge(b.documents, EdgeRef(e)) {
      DocumentEdgeOnce(allow, h, b, e);
      DocumentEdgeTargeted(allow, h, b, e);
    } else {
      LaterEdgeOnce(allow, h, b, e);
    }
  }

  function Stamp(prov: EdgeProvenance): Cell { Cell({}, ProvenanceProps(prov)) }

  /** Nothing but earlier stamps would be lost by writing the edge afresh. */
  ghost predicate OnlyStamps(p: Graph, e: EdgeId) {
    forall prov :: Merge(At(p, EdgeRef(e)), Stamp(prov)) == Merge(Fresh(EdgeRef(e)), Stamp(prov))
  }

  /** What the endpoint-checking run has of an edge is what the permissive run has of it, or
      nothing, and then the next write in time catches up. */
  ghost predicate Tracks(p: Graph, h: Graph, e: EdgeId) {
    && h.nodes == p.nodes
    && (Present(h, EdgeRef(e)) ==> BothEnds(h, e) && Find(h, EdgeRef(e)) == Find(p, EdgeRef(e)))
    && (!Present(h, EdgeRef(e)) ==> OnlyStamps(p, e))
  }

  lemma StampsAbsorb(base: Cell, s: EdgeProvenance, t: EdgeProvenance)
    ensures Merge(Merge(base, Stamp(s)), Stamp(t)) == Merge(base, Stamp(t))
  {
    MergeLaws(base, Stamp(s), Stamp(t));
  }

  lemma OnlyStampsStep(allow: Allow, p: Graph, b: ParsedBundle, e: EdgeId)
    requires OnlyStamps(p, e)
    ensures OnlyStamps(Loaded(allow, p, b), e)
  {
    EdgeAfterLoad(allow, p, b, e);
    forall prov
      ensures Merge(At(Loaded(allow, p, b), EdgeRef(e)), Stamp(prov)) == Merge(Fresh(EdgeRef(e)), Stamp(prov))
    {
      StampsAbsorb(At(p, EdgeRef(e)), ProvOf(b), prov);
    }
  }

  lemma TracksStep(allow: Allow, p: Graph, h: Graph, b: ParsedBundle, e: EdgeId)
    requires Tracks(p, h, e)
    ensures Tracks(Loaded(allow, p, b), StrictLoader(allow)(h, b), e)
    ensures Present(StrictLoader(allow)(h, b), EdgeRef(e)) <==> Present(h, EdgeRef(e)) || InTime(allow, p, b, e)
  {
    var ws := LoadWrites(allow, Index(h), b);
    NodesDecideIndex(h, p);
    SameNodes(h, p, ws);
    NodesStay(h, ws);
    EdgeAfterOnePass(allow, h, b, e);
    EdgeAfterLoad(allow, p, b, e);
    InTimeExecuted(allow, p, h, b, e);
    if !Present(h, EdgeRef(e)) {
      OnlyStampsStep(allow, p, b, e);
      assert Merge(At(p, EdgeRef(e)), Stamp(ProvOf(b))) == Merge(Fresh(EdgeRef(e)), Stamp(ProvOf(b)));
    }
  }

  /** Some load of the run writes the edge in time. */
  predicate WrittenInTime(allow: Allow, g: Graph, bs: seq<ParsedBundle>, e: EdgeId) {
    exists i :: 0 <= i < |bs| && InTime(allow, Loads(allow, g, bs[..i]), bs[i], e)
  }

  lemma WrittenInTimeStep(allow: Allow, g: Graph, init: seq<ParsedBundle>, b: ParsedBundle, e: EdgeId)
    ensures WrittenInTime(allow, g, init + [b], e)
            <==> WrittenInTime(allow, g, init, e) || InTime(allow, Loads(allow, g, init), b, e)
  {
    var bs := init + [b];
    assert bs[..|init|] == init && bs[|init|] == b;
    assert forall i :: 0 <= i < |init| ==> bs[..i] == init[..i] && bs[i] == init[i];
  }

  lemma {:induction false} EdgeAlong(allow: Allow, g: Graph, bs: seq<ParsedBundle>, e: EdgeId)
    requires NoDangling(g)
    ensures Tracks(Loads(allow, g, bs), StrictLoads(allow, g, bs), e)
    ensures Present(StrictLoads(allow, g, bs), EdgeRef(e))
            <==> e in g.edges.cells || WrittenInTime(allow, g, bs, e)
  {
    if bs != [] {
      var init, b := bs[..|bs| - 1], bs[|bs| - 1];
      assert bs == init + [b];
      EdgeAlong(allow, g, init, e);
      TracksStep(allow, Loads(allow, g, init), StrictLoads(allow, g, init), b, e);
      WrittenInTimeStep(allow, g, init, b, e);
    }
  }

  // ---- Which edges are lost ----------------------------------------------------------------

  /** The bundle links a document to an entity, or relates two entities, by this edge. */
  predicate Asks(allow: Allow, b: ParsedBundle, e: EdgeId) {
    || (e.src.Document? && NamesDocumentEdge(b.documents, EdgeRef(e)))
    || NamesRelation(b.relations[..AdmittedCount(allow, b.relations)], EdgeRef(e))
  }

  /** How many bundles have to have brought the ends of such an edge: a document's entities have
      to be there before the document's own bundle, a relation's may come with it. */
  function Deadline(e: EdgeId, i: nat): nat { if e.src.Document? then i else i + 1 }

  /** The edge is new, its ends are there in the end, and every bundle that asks for it does so
      before one of them is. */
  predicate Lost(allow: Allow, g: Graph, bs: seq<ParsedBundle>, e: EdgeId) {
    && e !in g.edges.cells && EndsKnown(g, bs, e)
    && (exists i :: 0 <= i < |bs| && Asks(allow, bs[i], e))
    && forall i :: 0 <= i < |bs| && Asks(allow, bs[i], e) ==> !EndsKnown(g, bs[..Deadline(e, i)], e)
  }

  lemma AskedShape(allow: Allow, b: ParsedBundle, e: EdgeId)
    requires Asks(allow, b, e)
    ensures e.dst.Entity? && (e.src.Entity? || (e.src.Document? && NamesDocument(b.documents, NodeRef(e.src))))
  {
    if e.src.Document? && NamesDocumentEdge(b.documents, EdgeRef(e)) {
      var i :| 0 <= i < |b.documents| && (DescribedBy(b.documents[i].uri, b.documents[i].describes, EdgeRef(e))
                                          || DefinedBy(b.documents[i].uri, b.documents[i].defines, EdgeRef(e)));
      assert e.src == Document(b.documents[i].uri);
    }
  }

  lemma LoadTargetsEdge(allow: Allow, index: map<string, string>, b: ParsedBundle, e: EdgeId)
    ensures Targets(LoadWrites(allow, index, b), EdgeRef(e)) <==>
            || NamesDocumentEdge(b.documents, EdgeRef(e))
            || NamesRelation(b.relations[..AdmittedCount(allow, b.relations)], EdgeRef(e))
            || Targets(ResolutionWrites(allow, index, b), EdgeRef(e))
  {
    RecordsExactly(allow, b, EdgeRef(e));
    TargetsConcat(RecordWrites(allow, b), ResolutionWrites(allow, index, b), EdgeRef(e));
  }

  /** The links of resolution have their ends in the graph or in the bundle itself. */
  lemma ResolutionEnds(allow: Allow, index: map<string, string>, b: ParsedBundle, e: EdgeId)
    requires Targets(ResolutionWrites(allow, index, b), EdgeRef(e))
    ensures e.src.Metric? || (e.src.Column? && NamesColumn(b.IterColumns(), NodeRef(e.src)))
    ensures e.dst.Metric? || (e.dst.Entity? && NamesEntity(b.entities, NodeRef(e.dst)))
  {
    var owners, columns := Owners(b.entities), b.IterColumns();
    GatherTargets(LinkWriter(index, owners, ProvOf(b)), columns, EdgeRef(e));
    var i :| 0 <= i < |columns| && Targets(LinkWriter(index, owners, ProvOf(b))(columns[i]), EdgeRef(e));
    ColumnLinks(index, owners, ProvOf(b), columns[i], EdgeRef(e));
    if e.src.Metric? {
      OwnerIsLastCarrier(b.entities, KeyOf(columns[i]));
      assert e.dst == Entity(b.entities[LastCarrier(b.entities, KeyOf(columns[i]))].uid);
    } else {
      assert e.src == Column(columns[i].system, columns[i].table, columns[i].name);
    }
  }

  /** A bundle that targets an edge of such a shape asks for it. */
  lemma TargetedIsAsked(allow: Allow, index: map<string, string>, b: ParsedBundle, e: EdgeId)
    requires e.src.Document? || e.src.Entity?
    ensures Targets(LoadWrites(allow, index, b), EdgeRef(e)) <==> Asks(allow, b, e)
  {
    LoadTargetsEdge(allow, index, b, e);
    if Targets(ResolutionWrites(allow, index, b), EdgeRef(e)) { ResolutionEnds(allow, index, b, e); }
  }

  /** An edge that is asked for is written in time exactly when its ends are brought in time. */
  lemma AskedInTime(allow: Allow, g: Graph, bs: seq<ParsedBundle>, i: nat, e: EdgeId)
    requires i < |bs| && Asks(allow, bs[i], e)
    ensures InTime(allow, Loads(allow, g, bs[..i]), bs[i], e) <==> EndsKnown(g, bs[..Deadline(e, i)], e)
  {
    var p := Loads(allow, g, bs[..i]);
    AskedShape(allow, bs[i], e);
    TargetedIsAsked(allow, Index(p), bs[i], e);
    LoadsStep(allow, g, bs, i);
    KnownExactly(allow, g, bs[..Deadline(e, i)], e.dst);
    if e.src.Entity? {
      KnownExactly(allow, g, bs[..Deadline(e, i)], e.src);
    } else {
      NodesExactly(allow, p, bs[i], e.src);
      NodesExactly(allow, p, bs[i], e.dst);
    }
  }

  /** Every other edge is written in time by each load that targets it, or lacks an end for good. */
  lemma OthersInTime(allow: Allow, g: Graph, bs: seq<ParsedBundle>, i: nat, e: EdgeId)
    requires i < |bs| && !Asks(allow, bs[i], e) && BothEnds(Loads(allow, g, bs), e)
    requires TargetedAt(allow, g, bs, i, e)
    ensures InTime(allow, Loads(allow, g, bs[..i]), bs[i], e)
  {
    var p := Loads(allow, g, bs[..i]);
    LoadTargetsEdge(allow, Index(p), bs[i], e);
    NodesExactly(allow, p, bs[i], e.src);
    NodesExactly(allow, p, bs[i], e.dst);
    if e.src.Metric? { MetricThere(allow, g, bs, i, e.src); }
    if e.dst.Metric? { MetricThere(allow, g, bs, i, e.dst); }
    if NamesDocumentEdge(bs[i].documents, EdgeRef(e)) {
      DefinesShape(bs[i], e);
    } else {
      ResolutionEnds(allow, Index(p), bs[i], e);
    }
  }

  lemma MetricThere(allow: Allow, g: Graph, bs: seq<ParsedBundle>, i: nat, n: NodeId)
    requires i <= |bs| && n.Metric? && n in Loads(allow, g, bs).nodes.cells
    ensures n in Loads(allow, g, bs[..i]).nodes.cells
  {
    MetricsGiven(allow, g, bs, n);
    MetricsGiven(allow, g, bs[..i], n);
  }

  lemma DefinesShape(b: ParsedBundle, e: EdgeId)
    requires NamesDocumentEdge(b.documents, EdgeRef(e)) && !e.src.Document?
    ensures e.src.Metric? && NamesDocument(b.documents, NodeRef(e.dst))
  {
    var i :| 0 <= i < |b.documents| && (DescribedBy(b.documents[i].uri, b.documents[i].describes, EdgeRef(e))
                                        || DefinedBy(b.documents[i].uri, b.documents[i].defines, EdgeRef(e)));
    assert e.dst == Document(b.documents[i].uri);
  }

  /** The load at position `i` targets the edge. */
  predicate TargetedAt(allow: Allow, g: Graph, bs: seq<ParsedBundle>, i: nat, e: EdgeId)
    requires i < |bs|
  {
    Targets(LoadWrites(allow, Index(Loads(allow, g, bs[..i])), bs[i]), EdgeRef(e))
  }

  lemma TargetedBySome(allow: Allow, g: Graph, bs: seq<ParsedBundle>, e: EdgeId)
    ensures Present(Loads(allow, g, bs), EdgeRef(e))
            <==> e in g.edges.cells || exists i :: 0 <= i < |bs| && TargetedAt(allow, g, bs, i, e)
  {
    var stored := (g: Graph) => Present(g, EdgeRef(e));
    var targets := (g: Graph, b: ParsedBundle) => Targets(LoadWrites(allow, Index(g), b), EdgeRef(e));
    forall g, b ensures stored(Loader(allow)(g, b)) <==> stored(g) || targets(g, b) {
      EdgeAfterLoad(allow, g, b, e);
    }
    ReachedExactly(Loader(allow), g, bs, stored, targets);
    assert forall i :: 0 <= i < |bs| ==>
      (TargetedAt(allow, g, bs, i, e) <==> targets(Fold(Loader(allow), g, bs[..i]), bs[i]));
  }

  /** The permissive run leaves the edge with both ends, the endpoint-checking one never wrote it. */
  predicate LeftOut(allow: Allow, g: Graph, bs: seq<ParsedBundle>, e: EdgeId) {
    var whole := Loads(allow, g, bs);
    BothEnds(whole, e) && Present(whole, EdgeRef(e)) && e !in g.edges.cells && !WrittenInTime(allow, g, bs, e)
  }

  lemma LeftOutIsLost(allow: Allow, g: Graph, bs: seq<ParsedBundle>, e: EdgeId)
    requires LeftOut(allow, g, bs, e)
    ensures Lost(allow, g, bs, e)
  {
    TargetedBySome(allow, g, bs, e);
    var i :| 0 <= i < |bs| && TargetedAt(allow, g, bs, i, e);
    if !Asks(allow, bs[i], e) { OthersInTime(allow, g, bs, i, e); }
    AskedShape(allow, bs[i], e);
    KnownExactly(allow, g, bs, e.dst);
    if e.src.Entity? { KnownExactly(allow, g, bs, e.src); }
    forall j | 0 <= j < |bs| && Asks(allow, bs[j], e) ensures !EndsKnown(g, bs[..Deadline(e, j)], e) {
      AskedInTime(allow, g, bs, j, e);
    }
  }

  lemma AskedEnds(allow: Allow, g: Graph, bs: seq<ParsedBundle>, i: nat, e: EdgeId)
    requires i < |bs| && Asks(allow, bs[i], e) && EndsKnown(g, bs, e)
    ensures BothEnds(Loads(allow, g, bs), e)
  {
    AskedShape(allow, bs[i], e);
    KnownExactly(allow, g, bs, e.dst);
    if e.src.Entity? {
      KnownExactly(allow, g, bs, e.src);
    } else {
      LoadsStep(allow, g, bs, i);
      NodesExactly(allow, Loads(allow, g, bs[..i]), bs[i], e.src);
      NodesRemain(allow, g, bs, i + 1, e.src);
    }
  }

  lemma NeverInTime(allow: Allow, g: Graph, bs: seq<ParsedBundle>, j: nat, e: EdgeId)
    requires j < |bs| && (e.src.Document? || e.src.Entity?)
    requires Asks(allow, bs[j], e) ==> !EndsKnown(g, bs[..Deadline(e, j)], e)
    ensures !InTime(allow, Loads(allow, g, bs[..j]), bs[j], e)
  {
    TargetedIsAsked(allow, Index(Loads(allow, g, bs[..j])), bs[j], e);
    if Asks(allow, bs[j], e) { AskedInTime(allow, g, bs, j, e); }
  }

  lemma LostIsLeftOut(allow: Allow, g: Graph, bs: seq<ParsedBundle>, e: EdgeId)
    requires Lost(allow, g, bs, e)
    ensures LeftOut(allow, g, bs, e)
  {
    var i :| 0 <= i < |bs| && Asks(allow, bs[i], e);
    AskedShape(allow, bs[i], e);
    AskedEnds(allow, g, bs, i, e);
    TargetedIsAsked(allow, Index(Loads(allow, g, bs[..i])), bs[i], e);
    assert TargetedAt(allow, g, bs, i, e);
    TargetedBySome(allow, g, bs, e);
    forall j | 0 <= j < |bs| ensures !InTime(allow, Loads(allow, g, bs[..j]), bs[j], e) {
      NeverInTime(allow, g, bs, j, e);
    }
  }

  // ---- Whole runs --------------------------------------------------------------------------

  lemma LostInRun(allow: Allow, g: Graph, bs: seq<ParsedBundle>, e: EdgeId)
    requires NoDangling(g) && Lost(allow, g, bs, e)
    ensures e in Anchored(Loads(allow, g, bs)) && e !in StrictLoads(allow, g, bs).edges.cells
  {
    LostIsLeftOut(allow, g, bs, e);
    EdgeAlong(allow, g, bs, e);
  }

  lemma StrictLoadsExactly(allow: Allow, g: Graph, bs: seq<ParsedBundle>)
    requires NoDangling(g)
    ensures var strict, whole := StrictLoads(allow, g, bs), Loads(allow, g, bs);
            && strict.nodes == whole.nodes
            && (strict.edges.cells == Anchored(whole) <==> forall e :: !Lost(allow, g, bs, e))
  {
    var strict, whole := StrictLoads(allow, g, bs), Loads(allow, g, bs);
    SameNodesAlong(allow, g, bs);
    if e :| Lost(allow, g, bs, e) {
      LostInRun(allow, g, bs, e);
    } else {
      forall e: EdgeId
        ensures Find(strict, EdgeRef(e)) == if BothEnds(whole, e) then Find(whole, EdgeRef(e)) else None
      {
        EdgeAlong(allow, g, bs, e);
        if LeftOut(allow, g, bs, e) { LeftOutIsLost(allow, g, bs, e); }
      }
      EdgeMapsEqual(strict, whole);
    }
  }

  lemma {:induction false} NothingLeft(allow: Allow, source: Source, d: Durable, items: seq<WorkItem>, times: Times)
    requires Keys(items) <= d.done
    ensures StrictIngested(allow, source, d, items, times) == d
  {
    if items != [] { NothingLeft(allow, source, d, items[..|items| - 1], times); }
  }

  /** A completed run into the endpoint-checking store leaves the nodes and the ledger of one into
      the permissive store, and exactly its edges with both endpoints, if and only if no link is
      lost: new, with both ends there in the end, and asked for only by items that come before one
      of them. Running again, at whatever times, brings none of those back. */
  lemma StrictIngestExactly(allow: Allow, source: Source, d: Durable, times: Times, again: Times)
    requires NoDangling(d.graph)
    ensures var strict := StrictIngested(allow, source, d, source.items, times);
            var whole := IngestAll(allow, source, d, source.items, times);
            var bs := Brought(source, d.done, source.items, times);
            && strict.graph.nodes == whole.graph.nodes && strict.done == whole.done
            && (strict.graph.edges.cells == Anchored(whole.graph) <==> forall e :: !Lost(allow, d.graph, bs, e))
            && StrictIngested(allow, source, strict, source.items, again) == strict
  {
    RunsAreLoads(allow, source, d, source.items, times);
    StrictLoadsExactly(allow, d.graph, Brought(source, d.done, source.items, times));
    IngestedKeys(allow, source, d, source.items, times);
    StrictKeys(allow, source, d, source.items, times);
    NothingLeft(allow, source, StrictIngested(allow, source, d, source.items, times), source.items, again);
  }

  /** One such run: two items, the first relating its entity to that of the second. */
  lemma EarlyRelationIsLost(allow: Allow, source: Source, first: WorkItem, second: WorkItem, rel: ObservedRelation,
                            times: Times)
    requires source.items == [first, second] && first.Key() != second.Key()
    requires Admits(allow, rel) && rel.subjectUid != rel.objectUid
    requires source.content(first).relations == [rel] && source.content(second).relations == []
    requires |source.content(first).entities| == 1 && source.content(first).entities[0].uid == rel.subjectUid
    requires |source.content(second).entities| == 1 && source.content(second).entities[0].uid == rel.objectUid
    ensures var d := Durable(Empty, {});
            && RelationEdge(rel) in Anchored(IngestAll(allow, source, d, source.items, times).graph)
            && RelationEdge(rel) !in StrictIngested(allow, source, d, source.items, times).graph.edges.cells
  {
    var d := Durable(Empty, {});
    var b, c := source.Parse(first, TimeOf(times, first)), source.Parse(second, TimeOf(times, second));
    RunsAreLoads(allow, source, d, source.items, times);
    TwoBrought(source, first, second, times);
    EarlyRelation(allow, b, c, rel);
    LostInRun(allow, Empty, [b, c], RelationEdge(rel));
  }

  lemma TwoBrought(source: Source, first: WorkItem, second: WorkItem, times: Times)
    requires source.items == [first, second] && first.Key() != second.Key()
    ensures Brought(source, {}, source.items, times)
         == [source.Parse(first, TimeOf(times, first)), source.Parse(second, TimeOf(times, second))]
  {
    assert source.items[..1] == [first] && [first][..0] == [];
    BroughtStep(source, {}, source.items, times);
    BroughtStep(source, {}, [first], times);
  }

  lemma OneEntity(b: ParsedBundle, uid: string, n: NodeId)
    requires |b.entities| == 1 && b.entities[0].uid == uid && n.Entity?
    ensures NamesEntity(b.entities, NodeRef(n)) <==> n.uid == uid
  {
    assert b.entities[0].uid == uid;
  }

  lemma OneRelation(allow: Allow, b: ParsedBundle, rel: ObservedRelation, asked: bool)
    requires Admits(allow, rel) && b.relations == if asked then [rel] else []
    ensures Asks(allow, b, RelationEdge(rel)) <==> asked
  {
    if asked {
      assert AdmittedCount(allow, b.relations) == 1 && b.relations[..1][0] == rel;
    }
  }

  lemma EarlyRelation(allow: Allow, b: ParsedBundle, c: ParsedBundle, rel: ObservedRelation)
    requires Admits(allow, rel) && rel.subjectUid != rel.objectUid
    requires b.relations == [rel] && |b.entities| == 1 && b.entities[0].uid == rel.subjectUid
    requires c.relations == [] && |c.entities| == 1 && c.entities[0].uid == rel.objectUid
    ensures Lost(allow, Empty, [b, c], RelationEdge(rel))
  {
    var bs, e := [b, c], RelationEdge(rel);
    OneRelation(allow, b, rel, true);
    OneRelation(allow, c, rel, false);
    assert bs[0] == b && bs[1] == c;
    assert !EndsKnown(Empty, bs[..Deadline(e, 0)], e) by {
      assert bs[..1] == [b];
      OneEntity(b, rel.subjectUid, e.dst);
    }
    assert EndsKnown(Empty, bs, e) by {
      OneEntity(b, rel.subjectUid, e.src);
      OneEntity(c, rel.objectUid, e.dst);
    }
  }
}
