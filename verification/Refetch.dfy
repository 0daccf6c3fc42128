/** At-least-once delivery of tasks that fetch again: the fetch time on an edge depends on the
    delivery, everything else does not. */
module Refetch {
  import opened Graphs
  import opened GraphLaws
  import opened Client
  import opened Ir
  import opened Pipeline
  import opened LoadLaws
  import opened LoadValues
  import opened Confluence
  import opened Deliveries

  // ---- Looking away from fetch times -------------------------------------------------------

  /** A cell without the fetch time, when it is an edge's. */
  function Timeless(r: Ref, c: Cell): Cell {
    if r.EdgeRef? then Cell(c.labels, c.props - {"as_of"}) else c
  }

  function TimelessWrite(w: Write): Write { Write(w.ref, Timeless(w.ref, w.delta)) }

  function TimelessAll(ws: seq<Write>): (vs: seq<Write>)
    ensures |vs| == |ws|
    ensures forall i :: 0 <= i < |ws| ==> vs[i] == TimelessWrite(ws[i])
  {
    seq(|ws|, i requires 0 <= i < |ws| => TimelessWrite(ws[i]))
  }

  function TimelessJobs(jobs: seq<seq<Write>>): (ts: seq<seq<Write>>)
    ensures |ts| == |jobs|
    ensures forall i :: 0 <= i < |jobs| ==> ts[i] == TimelessAll(jobs[i])
  {
    seq(|jobs|, i requires 0 <= i < |jobs| => TimelessAll(jobs[i]))
  }

  lemma TimelessMerge(r: Ref, a: Cell, b: Cell)
    ensures Timeless(r, Merge(a, b)) == Merge(Timeless(r, a), Timeless(r, b))
  {
    assert (a.props + b.props) - {"as_of"} == (a.props - {"as_of"}) + (b.props - {"as_of"});
  }

  lemma {:induction false} TimelessNet(ws: seq<Write>, r: Ref)
    ensures Net(TimelessAll(ws), r) == Timeless(r, Net(ws, r))
    ensures Targets(TimelessAll(ws), r) <==> Targets(ws, r)
  {
    if ws != [] {
      var init, w := ws[..|ws| - 1], ws[|ws| - 1];
      TimelessNet(init, r);
      assert ws == init + [w] && TimelessAll(ws) == TimelessAll(init) + [TimelessWrite(w)];
      NetSnoc(init, w, r);
      NetSnoc(TimelessAll(init), TimelessWrite(w), r);
      TimelessMerge(r, Net(init, r), w.delta);
    }
  }

  lemma {:induction false} TimelessFlatten(jobs: seq<seq<Write>>)
    ensures Flatten(TimelessJobs(jobs)) == TimelessAll(Flatten(jobs))
  {
    if jobs != [] {
      TimelessFlatten(jobs[1..]);
      assert TimelessJobs(jobs)[1..] == TimelessJobs(jobs[1..]);
    }
  }

  lemma {:induction false} TimelessAttempts(ws: seq<Write>, crashes: seq<nat>)
    ensures Attempts(TimelessAll(ws), crashes) == TimelessAll(Attempts(ws, crashes))
  {
    if crashes != [] {
      var n := if crashes[0] <= |ws| then crashes[0] else |ws|;
      TimelessAttempts(ws, crashes[1..]);
      assert TimelessAll(ws)[..n] == TimelessAll(ws[..n]);
    }
  }

  lemma TimelessStreams(jobs: seq<seq<Write>>, ds: seq<Delivery>)
    requires forall d :: d in ds ==> d.job < |jobs|
    ensures Streams(TimelessJobs(jobs), ds) == TimelessJobs(Streams(jobs, ds))
  {
    forall i | 0 <= i < |ds| ensures Streams(TimelessJobs(jobs), ds)[i] == TimelessJobs(Streams(jobs, ds))[i] {
      TimelessAttempts(jobs[ds[i].job], ds[i].crashes);
    }
  }

  lemma {:induction false} TimelessInterleave(streams: seq<seq<Write>>, schedule: seq<nat>)
    requires Schedules(streams, schedule)
    ensures Schedules(TimelessJobs(streams), schedule)
    ensures Interleave(TimelessJobs(streams), schedule) == TimelessAll(Interleave(streams, schedule))
    decreases |schedule|
  {
    if schedule != [] {
      var i := schedule[0];
      var rest, timeless := streams[i := streams[i][1..]], TimelessJobs(streams);
      TimelessInterleave(rest, schedule[1..]);
      assert timeless[i][1..] == TimelessAll(streams[i][1..]);
      assert timeless[i := timeless[i][1..]] == TimelessJobs(rest);
    }
  }

  /** What is stored of a node or edge, but for fetch times. */
  predicate SameButTime(g: Graph, h: Graph, r: Ref) {
    && (Present(g, r) <==> Present(h, r))
    && (Present(g, r) ==> Timeless(r, At(g, r)) == Timeless(r, At(h, r)))
  }

  lemma SameNetsSameButTime(g: Graph, vs: seq<Write>, ws: seq<Write>, r: Ref)
    requires Net(TimelessAll(vs), r) == Net(TimelessAll(ws), r)
    requires Targets(TimelessAll(vs), r) <==> Targets(TimelessAll(ws), r)
    ensures SameButTime(ApplyAll(g, vs), ApplyAll(g, ws), r)
  {
    TimelessNet(vs, r);
    TimelessNet(ws, r);
    FindAfterAll(g, vs, r);
    FindAfterAll(g, ws, r);
    TimelessMerge(r, At(g, r), Net(vs, r));
    TimelessMerge(r, At(g, r), Net(ws, r));
  }

  // ---- Fetching again ----------------------------------------------------------------------

  lemma {:induction false} GatherTimeless<T>(f: T -> seq<Write>, h: T -> seq<Write>, xs: seq<T>)
    requires forall x :: x in xs ==> TimelessAll(f(x)) == TimelessAll(h(x))
    ensures TimelessAll(Gather(f, xs)) == TimelessAll(Gather(h, xs))
  {
    if xs != [] {
      var init, x := xs[..|xs| - 1], xs[|xs| - 1];
      assert x in xs && forall y :: y in init ==> y in xs;
      GatherTimeless(f, h, init);
      TimelessConcat(Gather(f, init), f(x));
      TimelessConcat(Gather(h, init), h(x));
    }
  }

  lemma TimelessConcat(vs: seq<Write>, ws: seq<Write>)
    ensures TimelessAll(vs + ws) == TimelessAll(vs) + TimelessAll(ws)
  {
  }

  /** Two stamps that differ in the time only. */
  predicate OtherTime(p: EdgeProvenance, q: EdgeProvenance) {
    p.sourceRef == q.sourceRef && p.createdBy == q.createdBy
  }

  lemma EdgeTimeless(e: EdgeId, p: EdgeProvenance, q: EdgeProvenance)
    requires OtherTime(p, q)
    ensures TimelessWrite(EdgeWrite(e, p)) == TimelessWrite(EdgeWrite(e, q))
    ensures TimelessAll([EdgeWrite(e, p)]) == TimelessAll([EdgeWrite(e, q)])
  {
    assert ProvenanceProps(p) - {"as_of"} == ProvenanceProps(q) - {"as_of"};
  }

  lemma DocumentTimeless(p: EdgeProvenance, q: EdgeProvenance, d: ObservedDocument)
    requires OtherTime(p, q)
    ensures TimelessAll(DocumentWriter(p)(d)) == TimelessAll(DocumentWriter(q)(d))
  {
    var head := [Effect(UpsertDocument(d.uri, d.title, d.text, d.asOf))];
    forall uid: string
      ensures TimelessAll(DescribesWriter(d.uri, p)(uid)) == TimelessAll(DescribesWriter(d.uri, q)(uid))
    {
      EdgeTimeless(Describes(d.uri, uid), p, q);
    }
    forall k: string ensures TimelessAll(DefinesWriter(d.uri, p)(k)) == TimelessAll(DefinesWriter(d.uri, q)(k)) {
      EdgeTimeless(DefinedIn(k, d.uri), p, q);
    }
    GatherTimeless(DescribesWriter(d.uri, p), DescribesWriter(d.uri, q), d.describes);
    GatherTimeless(DefinesWriter(d.uri, p), DefinesWriter(d.uri, q), d.defines);
    ThreeParts(head, Gather(DescribesWriter(d.uri, p), d.describes), Gather(DefinesWriter(d.uri, p), d.defines));
    ThreeParts(head, Gather(DescribesWriter(d.uri, q), d.describes), Gather(DefinesWriter(d.uri, q), d.defines));
  }

  lemma ThreeParts(a: seq<Write>, b: seq<Write>, c: seq<Write>)
    ensures TimelessAll(a + b + c) == TimelessAll(a) + TimelessAll(b) + TimelessAll(c)
  {
    TimelessConcat(a + b, c);
    TimelessConcat(a, b);
  }

  lemma LinkTimeless(index: map<string, string>, owners: map<ColumnKey, string>, p: EdgeProvenance, q: EdgeProvenance,
                     c: ObservedColumn)
    requires OtherTime(p, q)
    ensures TimelessAll(LinkWriter(index, owners, p)(c)) == TimelessAll(LinkWriter(index, owners, q)(c))
  {
    forall e { EdgeTimeless(e, p, q); }
  }

  lemma LoadTimeless(allow: Allow, index: map<string, string>, b: ParsedBundle)
    ensures TimelessAll(LoadWrites(allow, index, b))
         == TimelessAll(Gather(DocumentWriter(ProvOf(b)), b.documents))
          + TimelessAll(Gather(ColumnWriter(), b.columns)) + TimelessAll(Gather(EntityWriter(allow), b.entities))
          + TimelessAll(Gather(RelationWriter(ProvOf(b)), b.relations[..AdmittedCount(allow, b.relations)]))
          + TimelessAll(ResolutionWrites(allow, index, b))
  {
    var docs, cols := Gather(DocumentWriter(ProvOf(b)), b.documents), Gather(ColumnWriter(), b.columns);
    var ents := Gather(EntityWriter(allow), b.entities);
    var rels := Gather(RelationWriter(ProvOf(b)), b.relations[..AdmittedCount(allow, b.relations)]);
    TimelessConcat(RecordWrites(allow, b), ResolutionWrites(allow, index, b));
    TimelessConcat(docs + cols + ents, rels);
    ThreeParts(docs, cols, ents);
  }

  lemma RelationsTimeless(p: EdgeProvenance, q: EdgeProvenance, relations: seq<ObservedRelation>)
    requires OtherTime(p, q)
    ensures TimelessAll(Gather(RelationWriter(p), relations)) == TimelessAll(Gather(RelationWriter(q), relations))
  {
    forall rel ensures TimelessAll(RelationWriter(p)(rel)) == TimelessAll(RelationWriter(q)(rel)) {
      EdgeTimeless(RelationEdge(rel), p, q);
    }
    GatherTimeless(RelationWriter(p), RelationWriter(q), relations);
  }

  lemma LinksTimeless(index: map<string, string>, owners: map<ColumnKey, string>, p: EdgeProvenance, q: EdgeProvenance,
                      columns: seq<ObservedColumn>)
    requires OtherTime(p, q)
    ensures TimelessAll(Gather(LinkWriter(index, owners, p), columns))
            == TimelessAll(Gather(LinkWriter(index, owners, q), columns))
  {
    forall c { LinkTimeless(index, owners, p, q, c); }
    GatherTimeless(LinkWriter(index, owners, p), LinkWriter(index, owners, q), columns);
  }

  lemma DocumentsTimeless(p: EdgeProvenance, q: EdgeProvenance, documents: seq<ObservedDocument>)
    requires OtherTime(p, q)
    ensures TimelessAll(Gather(DocumentWriter(p), documents)) == TimelessAll(Gather(DocumentWriter(q), documents))
  {
    forall d { DocumentTimeless(p, q, d); }
    GatherTimeless(DocumentWriter(p), DocumentWriter(q), documents);
  }

  /** Fetched at two times, a bundle compiles to the same writes but for the fetch time. */
  lemma RefetchTimeless(allow: Allow, index: map<string, string>, b: ParsedBundle, s: string, t: string)
    ensures TimelessAll(LoadWrites(allow, index, FetchedAt(b, s)))
            == TimelessAll(LoadWrites(allow, index, FetchedAt(b, t)))
  {
    var p, q := ProvOf(FetchedAt(b, s)), ProvOf(FetchedAt(b, t));
    DocumentsTimeless(p, q, b.documents);
    RelationsTimeless(p, q, b.relations[..AdmittedCount(allow, b.relations)]);
    LinksTimeless(index, Owners(b.entities), p, q, b.IterColumns());
    LoadTimeless(allow, index, FetchedAt(b, s));
    LoadTimeless(allow, index, FetchedAt(b, t));
  }

  // ---- Delivery ----------------------------------------------------------------------------

  /** `fetches` holds every fetch that is delivered: the same bundle may occur in it at several
      times. If the fetches agree but for fetch times, then every at-least-once delivery of
      them, crashed attempts and redeliveries included, in every interleaving, stores the same
      nodes, edges, labels and properties as loading them one after another, but for the fetch
      times on edges. */
  lemma RefetchedLoadsConverge(allow: Allow, g: Graph, fetches: seq<ParsedBundle>, ds: seq<Delivery>,
                               schedule: seq<nat>, r: Ref)
    requires var jobs := Jobs(allow, Index(g), fetches);
             AtLeastOnce(jobs, ds) && AllAgree(TimelessJobs(jobs)) && Schedules(Streams(jobs, ds), schedule)
    ensures SameButTime(ApplyAll(g, Interleave(Streams(Jobs(allow, Index(g), fetches), ds), schedule)),
                        LoadAll(allow, g, fetches), r)
  {
    var jobs := Jobs(allow, Index(g), fetches);
    var streams := Streams(jobs, ds);
    TimelessStreams(jobs, ds);
    TimelessInterleave(streams, schedule);
    AtLeastOnceTimeless(jobs, ds);
    DeliveryNet(TimelessJobs(jobs), ds, schedule, r);
    TimelessFlatten(jobs);
    SameNetsSameButTime(g, Interleave(streams, schedule), Flatten(jobs), r);
    LoadAllIsFlatten(allow, g, fetches);
  }

  /** Every at-least-once delivery, in every interleaving, stores what loading the fetches one
      after another stores, but for fetch times. */
  ghost predicate ConvergesButTime(allow: Allow, g: Graph, fetches: seq<ParsedBundle>) {
    forall ds, schedule, r ::
      AtLeastOnce(Jobs(allow, Index(g), fetches), ds) && Schedules(Streams(Jobs(allow, Index(g), fetches), ds),
                                                                   schedule) ==>
        SameButTime(ApplyAll(g, Interleave(Streams(Jobs(allow, Index(g), fetches), ds), schedule)),
                    LoadAll(allow, g, fetches), r)
  }

  /** A property other than a fetch time ends with the value of the job that runs last. */
  lemma LastTimeless(g: Graph, vs: seq<Write>, ws: seq<Write>, r: Ref, p: string)
    requires p in Net(TimelessAll(ws), r).props
    ensures var end := Timeless(r, At(ApplyAll(g, vs + ws), r)).props;
            && Present(ApplyAll(g, vs + ws), r)
            && p in end && end[p] == Net(TimelessAll(ws), r).props[p]
  {
    TimelessNet(ws, r);
    LastJobWins(g, vs, ws, r, p);
    if !Targets(ws, r) { NetUntargeted(ws, r); }
    TargetsConcat(vs, ws, r);
    FindAfterAll(g, vs + ws, r);
  }

  lemma LastRunsTimeless(allow: Allow, g: Graph, fetches: seq<ParsedBundle>, i: nat, j: nat)
    requires i < |fetches| && j < |fetches| && ConvergesButTime(allow, g, fetches)
    ensures var ts := TimelessJobs(Jobs(allow, Index(g), fetches)); Agree(ts[i], ts[j])
  {
    var jobs := Jobs(allow, Index(g), fetches);
    var s, us := RunsLast(jobs, i);
    var t, vs := RunsLast(jobs, j);
    forall r: Ref, p: string | p in Net(TimelessAll(jobs[i]), r).props && p in Net(TimelessAll(jobs[j]), r).props
      ensures Net(TimelessAll(jobs[i]), r).props[p] == Net(TimelessAll(jobs[j]), r).props[p]
    {
      assert SameButTime(ApplyAll(g, us + jobs[i]), LoadAll(allow, g, fetches), r);
      assert SameButTime(ApplyAll(g, vs + jobs[j]), LoadAll(allow, g, fetches), r);
      LastTimeless(g, us, jobs[i], r, p);
      LastTimeless(g, vs, jobs[j], r, p);
    }
  }

  /** The condition is exact: the fetches agree but for fetch times if and only if all their
      deliveries converge but for fetch times. */
  lemma RefetchIsExact(allow: Allow, g: Graph, fetches: seq<ParsedBundle>)
    ensures AllAgree(TimelessJobs(Jobs(allow, Index(g), fetches))) <==> ConvergesButTime(allow, g, fetches)
  {
    var jobs := Jobs(allow, Index(g), fetches);
    if AllAgree(TimelessJobs(jobs)) {
      forall ds, schedule, r | AtLeastOnce(jobs, ds) && Schedules(Streams(jobs, ds), schedule)
        ensures SameButTime(ApplyAll(g, Interleave(Streams(jobs, ds), schedule)), LoadAll(allow, g, fetches), r)
      {
        RefetchedLoadsConverge(allow, g, fetches, ds, schedule, r);
      }
    }
    if ConvergesButTime(allow, g, fetches) {
      forall i, j | 0 <= i < |jobs| && 0 <= j < |jobs| ensures Agree(TimelessJobs(jobs)[i], TimelessJobs(jobs)[j]) {
        LastRunsTimeless(allow, g, fetches, i, j);
      }
    }
  }

  lemma AtLeastOnceTimeless(jobs: seq<seq<Write>>, ds: seq<Delivery>)
    requires AtLeastOnce(jobs, ds)
    ensures AtLeastOnce(TimelessJobs(jobs), ds)
  {
  }

  /** Every write of an interleaving is one of some fetch. */
  lemma InterleavedFrom(allow: Allow, index: map<string, string>, fetches: seq<ParsedBundle>, ds: seq<Delivery>,
                        schedule: seq<nat>, w: Write) returns (k: nat)
    requires var jobs := Jobs(allow, index, fetches);
             AtLeastOnce(jobs, ds) && Schedules(Streams(jobs, ds), schedule)
               && w in Interleave(Streams(jobs, ds), schedule)
    ensures k < |fetches| && w in LoadWrites(allow, index, fetches[k])
  {
    var jobs := Jobs(allow, index, fetches);
    InterleaveMembers(Streams(jobs, ds), schedule, w);
    var i :| 0 <= i < |ds| && w in Streams(jobs, ds)[i];
    AttemptMembers(jobs[ds[i].job], ds[i].crashes, w);
    k := ds[i].job;
  }

  /** A time taken from one of the fetches. */
  predicate SomeFetchTime(props: Props, fetches: seq<ParsedBundle>) {
    "as_of" in props && exists k :: 0 <= k < |fetches| && props["as_of"] == Text(fetches[k].provenance.fetchedAt)
  }

  lemma {:induction false} NetTime(ws: seq<Write>, e: EdgeId, fetches: seq<ParsedBundle>)
    requires forall w :: w in ws && w.ref == EdgeRef(e) ==> SomeFetchTime(w.delta.props, fetches)
    ensures Targets(ws, EdgeRef(e)) ==> SomeFetchTime(Net(ws, EdgeRef(e)).props, fetches)
  {
    if ws != [] {
      var init, w := ws[..|ws| - 1], ws[|ws| - 1];
      assert ws == init + [w];
      assert w in ws && forall v :: v in init ==> v in ws;
      NetTime(init, e, fetches);
      NetSnoc(init, w, EdgeRef(e));
    }
  }

  /** And the fetch time an edge ends with, if any fetch writes that edge, is one of theirs. */
  lemma RefetchedTime(allow: Allow, g: Graph, fetches: seq<ParsedBundle>, ds: seq<Delivery>, schedule: seq<nat>,
                      e: EdgeId)
    requires var jobs := Jobs(allow, Index(g), fetches);
             AtLeastOnce(jobs, ds) && Schedules(Streams(jobs, ds), schedule)
    ensures var ws := Interleave(Streams(Jobs(allow, Index(g), fetches), ds), schedule);
            Targets(ws, EdgeRef(e)) ==> SomeFetchTime(At(ApplyAll(g, ws), EdgeRef(e)).props, fetches)
  {
    var ws := Interleave(Streams(Jobs(allow, Index(g), fetches), ds), schedule);
    forall w | w in ws && w.ref == EdgeRef(e) ensures SomeFetchTime(w.delta.props, fetches) {
      var k := InterleavedFrom(allow, Index(g), fetches, ds, schedule, w);
      LoadStamped(allow, Index(g), fetches[k]);
      assert w.delta.props["as_of"] == Text(fetches[k].provenance.fetchedAt);
    }
    NetTime(ws, e, fetches);
    FindAfterAll(g, ws, EdgeRef(e));
  }

  /** Fetches of one and the same content always agree, whatever their times. */
  lemma RefetchesAgree(allow: Allow, index: map<string, string>, b: ParsedBundle, fetches: seq<ParsedBundle>)
    requires forall i :: 0 <= i < |fetches| ==> fetches[i] == FetchedAt(b, fetches[i].provenance.fetchedAt)
    ensures AllAgree(TimelessJobs(Jobs(allow, index, fetches)))
  {
    var ts := TimelessJobs(Jobs(allow, index, fetches));
    forall i, j | 0 <= i < |ts| && 0 <= j < |ts| ensures Agree(ts[i], ts[j]) {
      RefetchTimeless(allow, index, b, fetches[i].provenance.fetchedAt, fetches[j].provenance.fetchedAt);
      assert ts[i] == ts[j];
    }
  }
}
