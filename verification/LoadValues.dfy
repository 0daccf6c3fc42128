/** The values a load leaves behind: every edge carries the bundle's provenance, the last
    observation of a column or document wins, and an entity gains exactly its picked labels. */
module LoadValues {
  import opened Wrappers
  import opened Graphs
  import opened GraphLaws
  import opened Client
  import opened Ir
  import opened Pipeline
  import opened LoadLaws

  // ---- Provenance --------------------------------------------------------------------------

  ghost predicate Stamped(ws: seq<Write>, prov: EdgeProvenance) {
    forall w :: w in ws && w.ref.EdgeRef? ==> w.delta == Cell({}, ProvenanceProps(prov))
  }

  lemma {:induction false} GatherStamped<T>(f: T -> seq<Write>, xs: seq<T>, prov: EdgeProvenance)
    requires forall x :: Stamped(f(x), prov)
    ensures Stamped(Gather(f, xs), prov)
  {
    if xs != [] { GatherStamped(f, xs[..|xs| - 1], prov); }
  }

  lemma StampedConcat(vs: seq<Write>, ws: seq<Write>, prov: EdgeProvenance)
    requires Stamped(vs, prov) && Stamped(ws, prov)
    ensures Stamped(vs + ws, prov)
  {
  }

  lemma DocumentStamped(prov: EdgeProvenance, d: ObservedDocument)
    ensures Stamped(DocumentWriter(prov)(d), prov)
  {
    var head := [Effect(UpsertDocument(d.uri, d.title, d.text, d.asOf))];
    GatherStamped(DescribesWriter(d.uri, prov), d.describes, prov);
    GatherStamped(DefinesWriter(d.uri, prov), d.defines, prov);
    StampedConcat(head, Gather(DescribesWriter(d.uri, prov), d.describes), prov);
  }

  lemma EntityStamped(allow: Allow, prov: EdgeProvenance, e: ObservedEntity)
    ensures Stamped(EntityWriter(allow)(e), prov)
  {
    GatherStamped(ColumnWriter(), e.columns, prov);
  }

  lemma RecordsStamped(allow: Allow, b: ParsedBundle)
    ensures Stamped(RecordWrites(allow, b), ProvOf(b))
  {
    var prov, n := ProvOf(b), AdmittedCount(allow, b.relations);
    var docs, cols := Gather(DocumentWriter(prov), b.documents), Gather(ColumnWriter(), b.columns);
    var ents := Gather(EntityWriter(allow), b.entities);
    forall d { DocumentStamped(prov, d); }
    forall e { EntityStamped(allow, prov, e); }
    GatherStamped(DocumentWriter(prov), b.documents, prov);
    GatherStamped(ColumnWriter(), b.columns, prov);
    GatherStamped(EntityWriter(allow), b.entities, prov);
    GatherStamped(RelationWriter(prov), b.relations[..n], prov);
    StampedConcat(docs, cols, prov);
    StampedConcat(docs + cols, ents, prov);
    StampedConcat(docs + cols + ents, Gather(RelationWriter(prov), b.relations[..n]), prov);
  }

  lemma LoadStamped(allow: Allow, index: map<string, string>, b: ParsedBundle)
    ensures Stamped(LoadWrites(allow, index, b), ProvOf(b))
  {
    var owners, prov := Owners(b.entities), ProvOf(b);
    RecordsStamped(allow, b);
    forall c ensures Stamped(LinkWriter(index, owners, prov)(c), prov) {}
    GatherStamped(LinkWriter(index, owners, prov), b.IterColumns(), prov);
    StampedConcat(RecordWrites(allow, b), ResolutionWrites(allow, index, b), prov);
  }

  /** The net effect after one more write on the same edge or elsewhere. */
  lemma StampOnce(init: seq<Write>, w: Write, stamp: Cell, r: Ref)
    requires w.ref == r ==> w.delta == stamp
    requires Targets(init, r) ==> Net(init, r) == stamp
    ensures Targets(init + [w], r) ==> Net(init + [w], r) == stamp
  {
    NetSnoc(init, w, r);
    if !Targets(init, r) { NetUntargeted(init, r); }
    MergeZero(stamp);
    assert Merge(stamp, stamp) == stamp;
  }

  lemma {:induction false} NetStamped(ws: seq<Write>, prov: EdgeProvenance, e: EdgeId)
    requires Stamped(ws, prov)
    ensures Targets(ws, EdgeRef(e)) ==> Net(ws, EdgeRef(e)) == Cell({}, ProvenanceProps(prov))
  {
    if ws != [] {
      var init, w := ws[..|ws| - 1], ws[|ws| - 1];
      assert w in ws && forall v :: v in init ==> v in ws;
      NetStamped(init, prov, e);
      StampOnce(init, w, Cell({}, ProvenanceProps(prov)), EdgeRef(e));
      assert init + [w] == ws;
    }
  }

  predicate CarriesProvenance(props: Props, p: Provenance) {
    && {"source_ref", "as_of", "created_by"} <= props.Keys
    && props["source_ref"] == Text(p.sourceRef) && props["as_of"] == Text(p.fetchedAt)
    && props["created_by"] == Text(p.connectorVersion)
  }

  lemma StampCarries(base: Cell, b: ParsedBundle)
    ensures CarriesProvenance(Merge(base, Cell({}, ProvenanceProps(ProvOf(b)))).props, b.provenance)
  {
  }

  /** Every edge a load writes ends with the source, fetch time and connector version of its
      bundle; every other edge is as it was. */
  lemma LoadedProvenance(allow: Allow, g: Graph, b: ParsedBundle, e: EdgeId)
    ensures if Targets(LoadWrites(allow, Index(g), b), EdgeRef(e))
            then Present(Loaded(allow, g, b), EdgeRef(e))
              && CarriesProvenance(At(Loaded(allow, g, b), EdgeRef(e)).props, b.provenance)
            else Find(Loaded(allow, g, b), EdgeRef(e)) == Find(g, EdgeRef(e))
  {
    var ws := LoadWrites(allow, Index(g), b);
    LoadStamped(allow, Index(g), b);
    NetStamped(ws, ProvOf(b), e);
    FindAfterAll(g, ws, EdgeRef(e));
    StampCarries(At(g, EdgeRef(e)), b);
  }

  // ---- The last observation wins -------------------------------------------------------------

  lemma {:induction false} GatherConcat<T>(f: T -> seq<Write>, xs: seq<T>, ys: seq<T>)
    ensures Gather(f, xs + ys) == Gather(f, xs) + Gather(f, ys)
  {
    if ys == [] {
      assert xs + ys == xs;
    } else {
      var all, init, last := xs + ys, ys[..|ys| - 1], ys[|ys| - 1];
      assert all[..|all| - 1] == xs + init && all[|all| - 1] == last;
      GatherConcat(f, xs, init);
      Associative(Gather(f, xs), Gather(f, init), f(last));
    }
  }

  function ColumnRef(key: ColumnKey): Ref { NodeRef(Column(key.system, key.table, key.name)) }

  /** Position of the last observation of a column, or -1. */
  function LastObserved(columns: seq<ObservedColumn>, key: ColumnKey): (i: int)
    ensures -1 <= i < |columns|
    ensures i >= 0 ==> KeyOf(columns[i]) == key
    ensures forall j :: i < j < |columns| ==> KeyOf(columns[j]) != key
  {
    if columns == [] then -1
    else if KeyOf(columns[|columns| - 1]) == key then |columns| - 1
    else LastObserved(columns[..|columns| - 1], key)
  }

  /** The properties say what one observation says. */
  predicate Shows(props: Props, c: ObservedColumn) {
    && "sample_values" in props && props["sample_values"] == Texts(c.sampleValues)
    && "has_dictionary" in props && props["has_dictionary"] == Flag(c.hasDictionary)
    && (c.dtype.Some? ==> "dtype" in props && props["dtype"] == Text(c.dtype.value))
  }

  function ColumnDelta(c: ObservedColumn): Cell {
    Cell({}, Clean(ColumnProps(c.dtype, c.sampleValues, c.hasDictionary)))
  }

  lemma DeltaShows(base: Cell, c: ObservedColumn)
    ensures Shows(Merge(base, ColumnDelta(c)).props, c)
  {
    assert Shows(ColumnDelta(c).props, c);
  }

  lemma {:induction false} NetOfColumns(columns: seq<ObservedColumn>, key: ColumnKey)
    ensures var net, last := Net(Gather(ColumnWriter(), columns), ColumnRef(key)), LastObserved(columns, key);
            if last >= 0 then Shows(net.props, columns[last]) else net == Zero
  {
    if columns != [] {
      var init, c := columns[..|columns| - 1], columns[|columns| - 1];
      NetOfColumns(init, key);
      NetNextColumn(columns, key);
      if KeyOf(c) == key { DeltaShows(Net(Gather(ColumnWriter(), init), ColumnRef(key)), c); }
    }
  }

  /** The entity upserts between the owned columns do not touch columns. */
  lemma {:induction false} NetOfOwned(allow: Allow, entities: seq<ObservedEntity>, key: ColumnKey)
    ensures Net(Gather(EntityWriter(allow), entities), ColumnRef(key))
            == Net(Gather(ColumnWriter(), OwnedColumns(entities)), ColumnRef(key))
  {
    if entities != [] {
      var r, init, e := ColumnRef(key), entities[..|entities| - 1], entities[|entities| - 1];
      NetOfOwned(allow, init, key);
      var head := Effect(UpsertEntity(e.uid, PickSubtype(allow.subtypes, e.candidateLabels), e.attributes));
      NetConcat(Gather(EntityWriter(allow), init), EntityWriter(allow)(e), r);
      NetConcat([head], Gather(ColumnWriter(), e.columns), r);
      TargetsOne(head, r);
      NetUntargeted([head], r);
      MergeZero(Net(Gather(ColumnWriter(), e.columns), r));
      GatherConcat(ColumnWriter(), OwnedColumns(init), e.columns);
      NetConcat(Gather(ColumnWriter(), OwnedColumns(init)), Gather(ColumnWriter(), e.columns), r);
    }
  }

  /** The four kinds of records act on a node one after another; links do not act on nodes. */
  lemma NetOfLoad(allow: Allow, index: map<string, string>, b: ParsedBundle, n: NodeId)
    ensures Net(LoadWrites(allow, index, b), NodeRef(n))
         == Merge(Merge(Net(Gather(DocumentWriter(ProvOf(b)), b.documents), NodeRef(n)),
                        Net(Gather(ColumnWriter(), b.columns), NodeRef(n))),
                  Net(Gather(EntityWriter(allow), b.entities), NodeRef(n)))
  {
    var prov, r, count := ProvOf(b), NodeRef(n), AdmittedCount(allow, b.relations);
    var docs, cols := Gather(DocumentWriter(prov), b.documents), Gather(ColumnWriter(), b.columns);
    var ents := Gather(EntityWriter(allow), b.entities);
    var rels := Gather(RelationWriter(prov), b.relations[..count]);
    NetConcat(RecordWrites(allow, b), ResolutionWrites(allow, index, b), r);
    NetConcat(docs + cols + ents, rels, r);
    NetConcat(docs + cols, ents, r);
    NetConcat(docs, cols, r);
    RelationsTarget(prov, b.relations[..count], r);
    NetUntargeted(rels, r);
    LinksNotNodes(allow, index, b, n);
    NetUntargeted(ResolutionWrites(allow, index, b), r);
    MergeZero(Net(docs + cols + ents, r));
  }

  lemma NetOfIterColumns(b: ParsedBundle, r: Ref)
    ensures Net(Gather(ColumnWriter(), b.IterColumns()), r)
         == Merge(Net(Gather(ColumnWriter(), b.columns), r), Net(Gather(ColumnWriter(), OwnedColumns(b.entities)), r))
  {
    GatherConcat(ColumnWriter(), b.columns, OwnedColumns(b.entities));
    NetConcat(Gather(ColumnWriter(), b.columns), Gather(ColumnWriter(), OwnedColumns(b.entities)), r);
  }

  lemma NoDocumentsAt(prov: EdgeProvenance, documents: seq<ObservedDocument>, n: NodeId)
    requires !n.Document?
    ensures Net(Gather(DocumentWriter(prov), documents), NodeRef(n)) == Zero
  {
    DocumentsTarget(prov, documents, NodeRef(n));
    NetUntargeted(Gather(DocumentWriter(prov), documents), NodeRef(n));
  }

  lemma NoColumnsAt(columns: seq<ObservedColumn>, n: NodeId)
    requires !n.Column?
    ensures Net(Gather(ColumnWriter(), columns), NodeRef(n)) == Zero
  {
    ColumnsTarget(columns, NodeRef(n));
    NetUntargeted(Gather(ColumnWriter(), columns), NodeRef(n));
  }

  lemma NetAtColumn(allow: Allow, index: map<string, string>, b: ParsedBundle, key: ColumnKey)
    ensures Net(LoadWrites(allow, index, b), ColumnRef(key))
         == Net(Gather(ColumnWriter(), b.IterColumns()), ColumnRef(key))
  {
    var n := Column(key.system, key.table, key.name);
    NetOfLoad(allow, index, b, n);
    NoDocumentsAt(ProvOf(b), b.documents, n);
    MergeZero(Net(Gather(ColumnWriter(), b.columns), NodeRef(n)));
    NetOfOwned(allow, b.entities, key);
    NetOfIterColumns(b, NodeRef(n));
  }

  /** A stored column shows its last observation in the order of `iter_columns`; a missing
      dtype leaves the one before. */
  lemma ColumnShowsLast(allow: Allow, g: Graph, b: ParsedBundle, key: ColumnKey)
    requires LastObserved(b.IterColumns(), key) >= 0
    ensures Present(Loaded(allow, g, b), ColumnRef(key))
    ensures Shows(At(Loaded(allow, g, b), ColumnRef(key)).props, b.IterColumns()[LastObserved(b.IterColumns(), key)])
  {
    var ws := LoadWrites(allow, Index(g), b);
    NetAtColumn(allow, Index(g), b, key);
    NetOfColumns(b.IterColumns(), key);
    FindAfterAll(g, ws, ColumnRef(key));
    if !Targets(ws, ColumnRef(key)) { NetUntargeted(ws, ColumnRef(key)); }
  }

  /** Position of the last record of a document, or -1. */
  function LastRecorded(documents: seq<ObservedDocument>, uri: string): (i: int)
    ensures -1 <= i < |documents|
    ensures i >= 0 ==> documents[i].uri == uri
    ensures forall j :: i < j < |documents| ==> documents[j].uri != uri
  {
    if documents == [] then -1
    else if documents[|documents| - 1].uri == uri then |documents| - 1
    else LastRecorded(documents[..|documents| - 1], uri)
  }

  predicate Tells(props: Props, d: ObservedDocument) {
    && "text" in props && props["text"] == Text(d.text)
    && (d.title.Some? ==> "title" in props && props["title"] == Text(d.title.value))
    && (d.asOf.Some? ==> "as_of" in props && props["as_of"] == Text(d.asOf.value))
  }

  function DocumentDelta(d: ObservedDocument): Cell { Cell({}, Clean(DocumentProps(d.title, d.text, d.asOf))) }

  lemma NetOfDocument(prov: EdgeProvenance, d: ObservedDocument, uri: string)
    ensures Net(DocumentWriter(prov)(d), NodeRef(Document(uri))) == if d.uri == uri then DocumentDelta(d) else Zero
  {
    var r, head := NodeRef(Document(uri)), Write(NodeRef(Document(d.uri)), DocumentDelta(d));
    assert head == Effect(UpsertDocument(d.uri, d.title, d.text, d.asOf));
    var describes := Gather(DescribesWriter(d.uri, prov), d.describes);
    var defines := Gather(DefinesWriter(d.uri, prov), d.defines);
    DescribesTarget(d.uri, prov, d.describes, r);
    DefinesTarget(d.uri, prov, d.defines, r);
    NetUntargeted(describes, r);
    NetUntargeted(defines, r);
    NetConcat([head], describes, r);
    NetConcat([head] + describes, defines, r);
    NetSnoc([], head, r);
    assert [] + [head] == [head];
    MergeZero(Net([head], r));
    MergeZero(DocumentDelta(d));
  }

  lemma DeltaTells(base: Cell, d: ObservedDocument)
    ensures Tells(Merge(base, DocumentDelta(d)).props, d)
  {
    assert Tells(DocumentDelta(d).props, d);
  }

  lemma {:induction false} NetOfDocuments(prov: EdgeProvenance, documents: seq<ObservedDocument>, uri: string)
    ensures var net := Net(Gather(DocumentWriter(prov), documents), NodeRef(Document(uri)));
            var last := LastRecorded(documents, uri);
            if last >= 0 then Tells(net.props, documents[last]) else net == Zero
  {
    if documents != [] {
      var init, d := documents[..|documents| - 1], documents[|documents| - 1];
      var r := NodeRef(Document(uri));
      NetOfDocuments(prov, init, uri);
      NetOfDocument(prov, d, uri);
      NetConcat(Gather(DocumentWriter(prov), init), DocumentWriter(prov)(d), r);
      MergeZero(Net(Gather(DocumentWriter(prov), init), r));
      if d.uri == uri { DeltaTells(Net(Gather(DocumentWriter(prov), init), r), d); }
    }
  }

  lemma NetAtDocument(allow: Allow, index: map<string, string>, b: ParsedBundle, uri: string)
    ensures Net(LoadWrites(allow, index, b), NodeRef(Document(uri)))
         == Net(Gather(DocumentWriter(ProvOf(b)), b.documents), NodeRef(Document(uri)))
  {
    var r := NodeRef(Document(uri));
    NetOfLoad(allow, index, b, r.node);
    NoColumnsAt(b.columns, r.node);
    EntitiesTarget(allow, b.entities, r);
    NetUntargeted(Gather(EntityWriter(allow), b.entities), r);
    MergeZero(Net(Gather(DocumentWriter(ProvOf(b)), b.documents), r));
  }

  /** A stored document tells what its last record in the bundle tells. */
  lemma DocumentTellsLast(allow: Allow, g: Graph, b: ParsedBundle, uri: string)
    requires LastRecorded(b.documents, uri) >= 0
    ensures Present(Loaded(allow, g, b), NodeRef(Document(uri)))
    ensures Tells(At(Loaded(allow, g, b), NodeRef(Document(uri))).props, b.documents[LastRecorded(b.documents, uri)])
  {
    var r, ws := NodeRef(Document(uri)), LoadWrites(allow, Index(g), b);
    NetAtDocument(allow, Index(g), b, uri);
    NetOfDocuments(ProvOf(b), b.documents, uri);
    FindAfterAll(g, ws, r);
    if !Targets(ws, r) { NetUntargeted(ws, r); }
  }

  // ---- Values that an observation may leave out ---------------------------------------------

  /** A text property that is set when given and otherwise left as it was. */
  predicate SetOrKept(after: Props, before: Props, p: string, given: Option<string>) {
    if given.Some? then p in after && after[p] == Text(given.value)
    else (p in after <==> p in before) && (p in after ==> after[p] == before[p])
  }

  function Newest(given: Option<string>, earlier: Option<string>): Option<string> {
    if given.Some? then given else earlier
  }

  /** The dtype of the last observation of a column that gives one. */
  function LastDtype(columns: seq<ObservedColumn>, key: ColumnKey): Option<string> {
    if columns == [] then None else
      var c := columns[|columns| - 1];
      Newest(if KeyOf(c) == key then c.dtype else None, LastDtype(columns[..|columns| - 1], key))
  }

  /** A delta that sets `p` exactly when something is given for it. */
  predicate Gives(delta: Cell, p: string, given: Option<string>) {
    (p in delta.props <==> given.Some?) && (given.Some? ==> delta.props[p] == Text(given.value))
  }

  lemma NewestSet(base: Cell, delta: Cell, p: string, given: Option<string>, earlier: Option<string>)
    requires SetOrKept(base.props, map[], p, earlier) && Gives(delta, p, given)
    ensures SetOrKept(Merge(base, delta).props, map[], p, Newest(given, earlier))
  {
  }

  lemma ColumnGives(c: ObservedColumn)
    ensures Gives(ColumnDelta(c), "dtype", c.dtype)
  {
  }

  lemma DocumentGives(d: ObservedDocument)
    ensures Gives(DocumentDelta(d), "title", d.title) && Gives(DocumentDelta(d), "as_of", d.asOf)
  {
  }

  lemma {:induction false} NetDtype(columns: seq<ObservedColumn>, key: ColumnKey)
    ensures SetOrKept(Net(Gather(ColumnWriter(), columns), ColumnRef(key)).props, map[], "dtype",
                      LastDtype(columns, key))
  {
    if columns != [] {
      var init, c := columns[..|columns| - 1], columns[|columns| - 1];
      NetDtype(init, key);
      NetNextColumn(columns, key);
      if KeyOf(c) == key {
        ColumnGives(c);
        NewestSet(Net(Gather(ColumnWriter(), init), ColumnRef(key)), ColumnDelta(c), "dtype", c.dtype,
                  LastDtype(init, key));
      }
    }
  }

  lemma NetNextColumn(columns: seq<ObservedColumn>, key: ColumnKey)
    requires columns != []
    ensures var init, c := columns[..|columns| - 1], columns[|columns| - 1];
            var base := Net(Gather(ColumnWriter(), init), ColumnRef(key));
            Net(Gather(ColumnWriter(), columns), ColumnRef(key))
              == if KeyOf(c) == key then Merge(base, ColumnDelta(c)) else base
  {
    var init, c := columns[..|columns| - 1], columns[|columns| - 1];
    var w := Write(ColumnRef(KeyOf(c)), ColumnDelta(c));
    assert Gather(ColumnWriter(), columns) == Gather(ColumnWriter(), init) + [w];
    NetSnoc(Gather(ColumnWriter(), init), w, ColumnRef(key));
  }

  lemma DeltaSets(base: Cell, p: string, given: Option<string>, delta: Cell)
    requires Gives(delta, p, given)
    ensures SetOrKept(Merge(base, delta).props, base.props, p, given)
  {
  }

  /** A stored column has the dtype of its last observation that gives one, or the one it had. */
  lemma ColumnDtype(allow: Allow, g: Graph, b: ParsedBundle, key: ColumnKey)
    requires LastObserved(b.IterColumns(), key) >= 0
    ensures SetOrKept(At(Loaded(allow, g, b), ColumnRef(key)).props, At(g, ColumnRef(key)).props, "dtype",
                      LastDtype(b.IterColumns(), key))
  {
    ColumnShowsLast(allow, g, b, key);
    NetAtColumn(allow, Index(g), b, key);
    NetDtype(b.IterColumns(), key);
    SetThrough(allow, g, b, ColumnRef(key), "dtype", LastDtype(b.IterColumns(), key));
  }

  /** What the net effect of a load sets, or leaves, is what the stored cell shows. */
  lemma SetThrough(allow: Allow, g: Graph, b: ParsedBundle, r: Ref, p: string, given: Option<string>)
    requires SetOrKept(Net(LoadWrites(allow, Index(g), b), r).props, map[], p, given)
    requires Present(Loaded(allow, g, b), r)
    ensures SetOrKept(At(Loaded(allow, g, b), r).props, At(g, r).props, p, given)
  {
    var ws := LoadWrites(allow, Index(g), b);
    FindAfterAll(g, ws, r);
    if !Targets(ws, r) { NetUntargeted(ws, r); }
    DeltaSets(At(g, r), p, given, Net(ws, r));
  }

  function LastTitle(documents: seq<ObservedDocument>, uri: string): Option<string> {
    if documents == [] then None else
      var d := documents[|documents| - 1];
      Newest(if d.uri == uri then d.title else None, LastTitle(documents[..|documents| - 1], uri))
  }

  function LastAsOf(documents: seq<ObservedDocument>, uri: string): Option<string> {
    if documents == [] then None else
      var d := documents[|documents| - 1];
      Newest(if d.uri == uri then d.asOf else None, LastAsOf(documents[..|documents| - 1], uri))
  }

  lemma NetNextDocument(prov: EdgeProvenance, documents: seq<ObservedDocument>, uri: string)
    requires documents != []
    ensures var init, d := documents[..|documents| - 1], documents[|documents| - 1];
            var base := Net(Gather(DocumentWriter(prov), init), NodeRef(Document(uri)));
            Net(Gather(DocumentWriter(prov), documents), NodeRef(Document(uri)))
              == if d.uri == uri then Merge(base, DocumentDelta(d)) else base
  {
    var init, d := documents[..|documents| - 1], documents[|documents| - 1];
    NetOfDocument(prov, d, uri);
    NetConcat(Gather(DocumentWriter(prov), init), DocumentWriter(prov)(d), NodeRef(Document(uri)));
    MergeZero(Net(Gather(DocumentWriter(prov), init), NodeRef(Document(uri))));
  }

  lemma {:induction false} NetTitles(prov: EdgeProvenance, documents: seq<ObservedDocument>, uri: string)
    ensures var net := Net(Gather(DocumentWriter(prov), documents), NodeRef(Document(uri))).props;
            SetOrKept(net, map[], "title", LastTitle(documents, uri))
              && SetOrKept(net, map[], "as_of", LastAsOf(documents, uri))
  {
    if documents != [] {
      var init, d := documents[..|documents| - 1], documents[|documents| - 1];
      var base := Net(Gather(DocumentWriter(prov), init), NodeRef(Document(uri)));
      NetTitles(prov, init, uri);
      NetNextDocument(prov, documents, uri);
      if d.uri == uri {
        DocumentGives(d);
        NewestSet(base, DocumentDelta(d), "title", d.title, LastTitle(init, uri));
        NewestSet(base, DocumentDelta(d), "as_of", d.asOf, LastAsOf(init, uri));
      }
    }
  }

  /** A stored document has the title and the date of its last records that give one, or those
      it had. */
  lemma DocumentTitles(allow: Allow, g: Graph, b: ParsedBundle, uri: string)
    requires LastRecorded(b.documents, uri) >= 0
    ensures var r := NodeRef(Document(uri));
            var after, before := At(Loaded(allow, g, b), r).props, At(g, r).props;
            && SetOrKept(after, before, "title", LastTitle(b.documents, uri))
            && SetOrKept(after, before, "as_of", LastAsOf(b.documents, uri))
  {
    DocumentTellsLast(allow, g, b, uri);
    NetAtDocument(allow, Index(g), b, uri);
    NetTitles(ProvOf(b), b.documents, uri);
    SetThrough(allow, g, b, NodeRef(Document(uri)), "title", LastTitle(b.documents, uri));
    SetThrough(allow, g, b, NodeRef(Document(uri)), "as_of", LastAsOf(b.documents, uri));
  }

  // ---- Entity labels -------------------------------------------------------------------------

  function PickedLabels(allow: Allow, e: ObservedEntity): set<string> {
    var picked := PickSubtype(allow.subtypes, e.candidateLabels);
    if picked.Some? && picked.value != "" then {picked.value} else {}
  }

  /** The labels some record of the bundle picks for an entity. */
  function LabelsFor(allow: Allow, entities: seq<ObservedEntity>, uid: string): (ls: set<string>)
    ensures forall l :: l in ls <==>
              exists i :: 0 <= i < |entities| && entities[i].uid == uid && l in PickedLabels(allow, entities[i])
  {
    if entities == [] then {} else
      var init, e := entities[..|entities| - 1], entities[|entities| - 1];
      assert forall i :: 0 <= i < |init| ==> init[i] == entities[i];
      LabelsFor(allow, init, uid) + if e.uid == uid then PickedLabels(allow, e) else {}
  }

  lemma NetOfEntity(allow: Allow, e: ObservedEntity, uid: string)
    ensures Net(EntityWriter(allow)(e), NodeRef(Entity(uid)))
         == if e.uid == uid then Cell(PickedLabels(allow, e), Clean(e.attributes)) else Zero
  {
    var r := NodeRef(Entity(uid));
    var head := Effect(UpsertEntity(e.uid, PickSubtype(allow.subtypes, e.candidateLabels), e.attributes));
    ColumnsTarget(e.columns, r);
    NetUntargeted(Gather(ColumnWriter(), e.columns), r);
    NetConcat([head], Gather(ColumnWriter(), e.columns), r);
    NetSnoc([], head, r);
    assert [] + [head] == [head];
    MergeZero(head.delta);
    MergeZero(Net([head], r));
  }

  lemma {:induction false} NetOfEntities(allow: Allow, entities: seq<ObservedEntity>, uid: string)
    ensures Net(Gather(EntityWriter(allow), entities), NodeRef(Entity(uid))).labels == LabelsFor(allow, entities, uid)
  {
    if entities != [] {
      var init, e := entities[..|entities| - 1], entities[|entities| - 1];
      NetOfEntities(allow, init, uid);
      NetOfEntity(allow, e, uid);
      NetConcat(Gather(EntityWriter(allow), init), EntityWriter(allow)(e), NodeRef(Entity(uid)));
    }
  }

  lemma NetAtEntity(allow: Allow, index: map<string, string>, b: ParsedBundle, uid: string)
    ensures Net(LoadWrites(allow, index, b), NodeRef(Entity(uid)))
         == Net(Gather(EntityWriter(allow), b.entities), NodeRef(Entity(uid)))
  {
    var r := NodeRef(Entity(uid));
    NetOfLoad(allow, index, b, r.node);
    NoDocumentsAt(ProvOf(b), b.documents, r.node);
    NoColumnsAt(b.columns, r.node);
    MergeZero(Zero);
    MergeZero(Net(Gather(EntityWriter(allow), b.entities), r));
  }

  /** A load adds to an entity exactly the first allow-listed candidate of each of its records;
      unknown candidates add nothing. */
  lemma EntityLabelsExactly(allow: Allow, g: Graph, b: ParsedBundle, uid: string)
    requires NamesEntity(b.entities, NodeRef(Entity(uid)))
    ensures Present(Loaded(allow, g, b), NodeRef(Entity(uid)))
    ensures At(Loaded(allow, g, b), NodeRef(Entity(uid))).labels
         == At(g, NodeRef(Entity(uid))).labels + LabelsFor(allow, b.entities, uid)
  {
    var r, ws := NodeRef(Entity(uid)), LoadWrites(allow, Index(g), b);
    NetAtEntity(allow, Index(g), b, uid);
    NetOfEntities(allow, b.entities, uid);
    NodesExactly(allow, g, b, r.node);
    FindAfterAll(g, ws, r);
    if !Targets(ws, r) { NetUntargeted(ws, r); }
  }
}
