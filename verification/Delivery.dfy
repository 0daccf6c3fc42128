/** Workers loading bundles under at-least-once delivery: what the interleaving theorem means
    for whole loads. */
module Deliveries {
  import opened Graphs
  import opened GraphLaws
  import opened Stores
  import opened Client
  import opened Ir
  import opened Pipeline
  import opened LoadLaws
  import opened LoadValues
  import opened Confluence

  /** Each bundle's compiled load. */
  function Jobs(allow: Allow, index: map<string, string>, bundles: seq<ParsedBundle>): (jobs: seq<seq<Write>>)
    ensures |jobs| == |bundles|
    ensures forall i :: 0 <= i < |bundles| ==> jobs[i] == LoadWrites(allow, index, bundles[i])
  {
    seq(|bundles|, i requires 0 <= i < |bundles| => LoadWrites(allow, index, bundles[i]))
  }

  /** Loading the bundles one after another. */
  function LoadAll(allow: Allow, g: Graph, bundles: seq<ParsedBundle>): Graph
    decreases |bundles|
  {
    if bundles == [] then g else LoadAll(allow, Loaded(allow, g, bundles[0]), bundles[1..])
  }

  lemma FlattenFirst(g: Graph, jobs: seq<seq<Write>>)
    requires jobs != []
    ensures ApplyAll(g, Flatten(jobs)) == ApplyAll(ApplyAll(g, jobs[0]), Flatten(jobs[1..]))
  {
    ApplyAllConcat(g, jobs[0], Flatten(jobs[1..]));
  }

  /** One after another, the loads run the compiled jobs one after another. */
  lemma {:induction false} LoadAllIsFlatten(allow: Allow, g: Graph, bundles: seq<ParsedBundle>)
    ensures LoadAll(allow, g, bundles) == ApplyAll(g, Flatten(Jobs(allow, Index(g), bundles)))
    decreases |bundles|
  {
    var jobs := Jobs(allow, Index(g), bundles);
    if bundles == [] {
      assert ApplyAll(g, []) == g;
    } else {
      var first := Loaded(allow, g, bundles[0]);
      assert jobs[1..] == Jobs(allow, Index(g), bundles[1..]);
      assert Index(first) == Index(g) by { LoadKeepsMetrics(allow, g, bundles[0]); }
      LoadAllIsFlatten(allow, first, bundles[1..]);
      FlattenFirst(g, jobs);
    }
  }

  lemma {:induction false} AttemptMembers(ws: seq<Write>, crashes: seq<nat>, w: Write)
    requires w in Attempts(ws, crashes)
    ensures w in ws
  {
    if crashes != [] && w in Attempts(ws, crashes[1..]) { AttemptMembers(ws, crashes[1..], w); }
  }

  lemma {:induction false} InterleaveMembers(streams: seq<seq<Write>>, schedule: seq<nat>, w: Write)
    requires Schedules(streams, schedule) && w in Interleave(streams, schedule)
    ensures exists i :: 0 <= i < |streams| && w in streams[i]
    decreases |schedule|
  {
    var i := schedule[0];
    if w == streams[i][0] {
      assert w in streams[i];
    } else {
      var rest := streams[i := streams[i][1..]];
      InterleaveMembers(rest, schedule[1..], w);
      var j :| 0 <= j < |rest| && w in rest[j];
      assert w in streams[j];
    }
  }

  lemma InterleavingAvoidsMetrics(allow: Allow, index: map<string, string>, bundles: seq<ParsedBundle>,
                                  ds: seq<Delivery>, schedule: seq<nat>)
    requires var jobs := Jobs(allow, index, bundles);
             AtLeastOnce(jobs, ds) && Schedules(Streams(jobs, ds), schedule)
    ensures Avoids(Interleave(Streams(Jobs(allow, index, bundles), ds), schedule), "Metric")
  {
    var jobs := Jobs(allow, index, bundles);
    var streams := Streams(jobs, ds);
    forall w | w in Interleave(streams, schedule) && w.ref.NodeRef? ensures w.ref.node.Label() != "Metric" {
      InterleaveMembers(streams, schedule, w);
      var i :| 0 <= i < |streams| && w in streams[i];
      AttemptMembers(jobs[ds[i].job], ds[i].crashes, w);
      LoadAvoidsMetrics(allow, index, bundles[ds[i].job]);
    }
  }

  /** Workers see the same index at every moment of the interleaving, so the writes each of
      them makes next are those of its compiled bundle. */
  lemma IndexAtEveryMoment(allow: Allow, g: Graph, bundles: seq<ParsedBundle>, ds: seq<Delivery>, schedule: seq<nat>,
                           k: nat)
    requires var jobs := Jobs(allow, Index(g), bundles);
             AtLeastOnce(jobs, ds) && Schedules(Streams(jobs, ds), schedule)
    requires k <= |Interleave(Streams(Jobs(allow, Index(g), bundles), ds), schedule)|
    ensures Index(ApplyAll(g, Interleave(Streams(Jobs(allow, Index(g), bundles), ds), schedule)[..k])) == Index(g)
  {
    InterleavingAvoidsMetrics(allow, Index(g), bundles, ds, schedule);
    MetricsKept(g, Interleave(Streams(Jobs(allow, Index(g), bundles), ds), schedule)[..k]);
  }

  /** At-least-once delivery converges: however the workers' upserts interleave, crash and are
      redelivered, the graph ends with the contents of loading the bundles one after another,
      provided that they leave equal values wherever two of them set the same property. */
  lemma LoadsConverge(allow: Allow, g: Graph, bundles: seq<ParsedBundle>, ds: seq<Delivery>, schedule: seq<nat>)
    requires var jobs := Jobs(allow, Index(g), bundles);
             AtLeastOnce(jobs, ds) && AllAgree(jobs) && Schedules(Streams(jobs, ds), schedule)
    ensures ContentsOf(ApplyAll(g, Interleave(Streams(Jobs(allow, Index(g), bundles), ds), schedule)))
         == ContentsOf(LoadAll(allow, g, bundles))
  {
    DeliveryConfluence(g, Jobs(allow, Index(g), bundles), ds, schedule);
    LoadAllIsFlatten(allow, g, bundles);
  }

  /** And only then: bundles that disagree have deliveries that end differently, even among the
      deliveries that bring each bundle exactly once and never crash. */
  lemma LoadsConvergeExactly(allow: Allow, g: Graph, bundles: seq<ParsedBundle>)
    ensures AllAgree(Jobs(allow, Index(g), bundles)) <==> Converges(g, Jobs(allow, Index(g), bundles))
    ensures AllAgree(Jobs(allow, Index(g), bundles)) <==> ConvergesOnce(g, Jobs(allow, Index(g), bundles))
  {
    AgreementIsExact(g, Jobs(allow, Index(g), bundles));
    OnceIsExact(g, Jobs(allow, Index(g), bundles));
  }

  lemma LoadTextNet(allow: Allow, index: map<string, string>, b: ParsedBundle, uri: string)
    requires LastRecorded(b.documents, uri) >= 0
    ensures Tells(Net(LoadWrites(allow, index, b), NodeRef(Document(uri))).props,
                  b.documents[LastRecorded(b.documents, uri)])
  {
    NetAtDocument(allow, index, b, uri);
    NetOfDocuments(ProvOf(b), b.documents, uri);
  }

  lemma ValuesDisagree(jobs: seq<seq<Write>>, i: nat, j: nat, r: Ref, p: string)
    requires i < |jobs| && j < |jobs| && p in Net(jobs[i], r).props && p in Net(jobs[j], r).props
    requires Net(jobs[i], r).props[p] != Net(jobs[j], r).props[p]
    ensures !AllAgree(jobs)
  {
    assert !Agree(jobs[i], jobs[j]);
  }

  /** Two bundles that record one document with two texts: agreement fails, and so does
      convergence, even when each is loaded exactly once. */
  lemma TwoTextsDiverge(allow: Allow, g: Graph, a: ParsedBundle, b: ParsedBundle, uri: string)
    requires LastRecorded(a.documents, uri) >= 0 && LastRecorded(b.documents, uri) >= 0
    requires a.documents[LastRecorded(a.documents, uri)].text != b.documents[LastRecorded(b.documents, uri)].text
    ensures !AllAgree(Jobs(allow, Index(g), [a, b])) && !Converges(g, Jobs(allow, Index(g), [a, b]))
    ensures !ConvergesOnce(g, Jobs(allow, Index(g), [a, b]))
  {
    var jobs, r := Jobs(allow, Index(g), [a, b]), NodeRef(Document(uri));
    LoadTextNet(allow, Index(g), a, uri);
    LoadTextNet(allow, Index(g), b, uri);
    assert jobs[0] == LoadWrites(allow, Index(g), a) && jobs[1] == LoadWrites(allow, Index(g), b);
    ValuesDisagree(jobs, 0, 1, r, "text");
    LoadsConvergeExactly(allow, g, [a, b]);
  }

  /** Two such bundles. */
  lemma OverviewDiverges(allow: Allow, g: Graph, a: ParsedBundle, b: ParsedBundle, d: ObservedDocument,
                         e: ObservedDocument)
    requires a.documents == [d] && b.documents == [e]
    requires d.uri == "doc://parts/overview" == e.uri && d.text == "Parts" && e.text == "Widgets"
    ensures !Converges(g, Jobs(allow, Index(g), [a, b])) && !ConvergesOnce(g, Jobs(allow, Index(g), [a, b]))
  {
    assert a.documents[0] == d && b.documents[0] == e;
    TwoTextsDiverge(allow, g, a, b, d.uri);
  }
}
