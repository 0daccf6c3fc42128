/** Packs: namespace validation, allow-lists, and the metric catalog with its aliases. */
module Packs {
  import opened Wrappers
  import opened PyStrings
  import opened Graphs
  import opened GraphLaws
  import opened Stores
  import opened Client
  import opened WriteLaws
  import opened AliasLaws
  import opened Pipeline

  const SHARED_NAMESPACE := "shared"

  datatype MetricDef = MetricDef(metricKey: string, fields: MetricFields, aliases: seq<string>, attributes: Props)

  datatype BenchmarkDef = BenchmarkDef(benchmarkKey: string, attributes: Props)

  datatype Pack = Pack(
    name: string, entitySubtypes: seq<string>, edgeTypes: seq<string>,
    metrics: seq<MetricDef>, benchmarks: seq<BenchmarkDef>, namespace: Option<string>)
  {
    function MetricNamespace(): string {
      if namespace.Some? && namespace.value != "" then namespace.value else name
    }
  }

  predicate InNamespace(pack: Pack, m: MetricDef) {
    Before(m.metricKey, '.') in {pack.MetricNamespace(), SHARED_NAMESPACE}
  }

  predicate ValidPack(pack: Pack) { forall m :: m in pack.metrics ==> InNamespace(pack, m) }

  /** Metric attributes as the loader passes them on: an alias list, when not empty, is one. */
  function AttributesOf(m: MetricDef): Props {
    if m.aliases != [] then m.attributes["aliases" := Texts(m.aliases)] else m.attributes
  }

  function MetricWriter(): MetricDef -> seq<Write> {
    (m: MetricDef) => [Effect(UpsertMetric(m.metricKey, m.fields, AttributesOf(m)))]
  }

  function BenchmarkWriter(): BenchmarkDef -> seq<Write> {
    (b: BenchmarkDef) => [Effect(UpsertBenchmark(b.benchmarkKey, b.attributes))]
  }

  function PackWrites(pack: Pack): seq<Write> {
    Gather(MetricWriter(), pack.metrics) + Gather(BenchmarkWriter(), pack.benchmarks)
  }

  function Elements(xs: seq<string>): set<string> { set x | x in xs }

  function Widened(a: Allow, pack: Pack): Allow {
    Allow(a.subtypes + Elements(pack.entitySubtypes), a.edgeTypes + Elements(pack.edgeTypes))
  }

  /** A key is in a pack's namespace when it lies under the one the pack owns, which is its name
      unless it gives another, or under the shared one. */
  lemma NamespaceExactly(pack: Pack, m: MetricDef)
    ensures var owned := if pack.namespace.Some? && pack.namespace.value != "" then pack.namespace.value else pack.name;
            InNamespace(pack, m) <==>
            exists ns :: (ns == owned || ns == "shared") && '.' !in ns && (m.metricKey == ns || ns + "." <= m.metricKey)
  {
    var owned := pack.MetricNamespace();
    BeforeIsNamespace(m.metricKey, owned);
    BeforeIsNamespace(m.metricKey, "shared");
  }

  /** Every key lies under the namespace the pack owns, or under the shared one. */
  predicate KeysOwned(pack: Pack) {
    var owned := if pack.namespace.Some? && pack.namespace.value != "" then pack.namespace.value else pack.name;
    forall m :: m in pack.metrics ==> Under(m.metricKey, owned) || Under(m.metricKey, "shared")
  }

  lemma ValidExactly(pack: Pack)
    ensures ValidPack(pack) <==> KeysOwned(pack)
  {
    forall m | m in pack.metrics
      ensures InNamespace(pack, m) <==> Under(m.metricKey, "shared") || Under(m.metricKey, pack.MetricNamespace())
    {
      BeforeIsNamespace(m.metricKey, pack.MetricNamespace());
      BeforeIsNamespace(m.metricKey, "shared");
    }
  }

  /** A key of another namespace is rejected, whatever comes after its dot. */
  lemma ForeignKeyRejected(pack: Pack, m: MetricDef, ns: string, local: string)
    requires m in pack.metrics && m.metricKey == ns + "." + local && '.' !in ns
    requires pack.namespace.None? && ns != pack.name && ns != "shared"
    ensures !ValidPack(pack)
  {
    assert ns + "." + local == ns + ['.'] + local;
    SplitJoined(ns, '.', local);
    assert !InNamespace(pack, m);
  }

  /** A pack that gives a namespace owns the keys under it, and not those under its own name. */
  lemma NamespaceOverName(pack: Pack, ns: string, local: string)
    requires pack.namespace == Some(ns) && ns != "" && '.' !in ns
    requires |pack.metrics| == 1 && '.' !in pack.name && pack.name != ns && pack.name != "shared"
    ensures pack.metrics[0].metricKey == ns + "." + local ==> ValidPack(pack)
    ensures pack.metrics[0].metricKey == pack.name + "." + local ==> !ValidPack(pack)
  {
    assert ns + "." + local == ns + ['.'] + local && pack.name + "." + local == pack.name + ['.'] + local;
    SplitJoined(ns, '.', local);
    SplitJoined(pack.name, '.', local);
    assert ValidPack(pack) <==> InNamespace(pack, pack.metrics[0]);
  }

  method Validate(pack: Pack) returns (r: Result<()>)
    ensures r.Ok? <==> ValidPack(pack)
    ensures r.Ok? <==> KeysOwned(pack)
    ensures r.Err? ==> exists i :: 0 <= i < |pack.metrics| && r.error == NamespaceError(pack.metrics[i].metricKey)
                         && !InNamespace(pack, pack.metrics[i])
                         && forall j :: 0 <= j < i ==> InNamespace(pack, pack.metrics[j])
  {
    var allowed := {pack.MetricNamespace(), SHARED_NAMESPACE};
    for i := 0 to |pack.metrics|
      invariant forall j :: 0 <= j < i ==> InNamespace(pack, pack.metrics[j])
    {
      var ns := Before(pack.metrics[i].metricKey, '.');
      if ns !in allowed {
        assert !InNamespace(pack, pack.metrics[i]) && pack.metrics[i] in pack.metrics;
        assert !KeysOwned(pack) by { ValidExactly(pack); }
        return Err(NamespaceError(pack.metrics[i].metricKey));
      }
    }
    assert KeysOwned(pack) by { ValidExactly(pack); }
    r := Ok(());
  }

  method LoadMetrics(client: GraphClient, metrics: seq<MetricDef>)
    modifies client.store
    ensures client.History() == RecordAll(old(client.History()), Gather(MetricWriter(), metrics))
  {
    ghost var start := client.History();
    for i := 0 to |metrics|
      invariant client.History() == RecordAll(start, Gather(MetricWriter(), metrics[..i]))
    {
      var m := metrics[i];
      GatherStep(start, MetricWriter(), metrics, i);
      RecordOne(client.History(), Effect(UpsertMetric(m.metricKey, m.fields, AttributesOf(m))));
      client.UpsertMetric(m.metricKey, m.fields, AttributesOf(m));
    }
    assert metrics[..|metrics|] == metrics;
  }

  method LoadBenchmarks(client: GraphClient, benchmarks: seq<BenchmarkDef>)
    modifies client.store
    ensures client.History() == RecordAll(old(client.History()), Gather(BenchmarkWriter(), benchmarks))
  {
    ghost var start := client.History();
    for i := 0 to |benchmarks|
      invariant client.History() == RecordAll(start, Gather(BenchmarkWriter(), benchmarks[..i]))
    {
      var b := benchmarks[i];
      GatherStep(start, BenchmarkWriter(), benchmarks, i);
      RecordOne(client.History(), Effect(UpsertBenchmark(b.benchmarkKey, b.attributes)));
      client.UpsertBenchmark(b.benchmarkKey, b.attributes);
    }
    assert benchmarks[..|benchmarks|] == benchmarks;
  }

  /** An invalid pack changes neither the graph nor the allow-lists. */
  method LoadPack(client: GraphClient, pack: Pack) returns (r: Result<()>)
    modifies client, client.store
    ensures r.Ok? <==> ValidPack(pack)
    ensures r.Err? ==> client.History() == old(client.History()) && client.AllowLists() == old(client.AllowLists())
    ensures r.Ok? ==> client.Contents() == ApplyAll(old(client.Contents()), PackWrites(pack))
    ensures r.Ok? ==> client.store.log == old(client.store.log) + PackWrites(pack)
    ensures r.Ok? ==> client.AllowLists() == Widened(old(client.AllowLists()), pack)
    ensures r.Ok? ==> forall x ::
              x in client.entitySubtypes <==> x in old(client.entitySubtypes) || x in pack.entitySubtypes
    ensures r.Ok? ==> forall x ::
              x in client.packEdgeTypes <==> x in old(client.packEdgeTypes) || x in pack.edgeTypes
  {
    var valid := Validate(pack);
    if valid.Err? {
      return valid;
    }
    client.RegisterAllowlists(Elements(pack.entitySubtypes), Elements(pack.edgeTypes));
    Recorded(client.History(), PackWrites(pack));
    RecordAllConcat(client.History(), Gather(MetricWriter(), pack.metrics), Gather(BenchmarkWriter(), pack.benchmarks));
    LoadMetrics(client, pack.metrics);
    LoadBenchmarks(client, pack.benchmarks);
    r := Ok(());
  }

  // ---- Loading a pack again ----------------------------------------------------------------

  /** Loading a pack twice in a row is loading it once. */
  lemma LoadPackTwice(a: Allow, g: Graph, pack: Pack)
    ensures ApplyAll(ApplyAll(g, PackWrites(pack)), PackWrites(pack)) == ApplyAll(g, PackWrites(pack))
    ensures Widened(Widened(a, pack), pack) == Widened(a, pack)
  {
    Absorb(g, PackWrites(pack), PackWrites(pack));
  }

  /** The aliases a definition gives: its alias list, when not empty, or else a free attribute
      of that name. */
  function GivenAliases(m: MetricDef): Option<seq<string>> {
    if m.aliases != [] then Some(m.aliases)
    else if "aliases" in m.attributes && m.attributes["aliases"] != Null then Some(AliasesOf(Cell({}, m.attributes)))
    else None
  }

  /** The last aliases a catalog gives a metric. */
  function LastAliases(metrics: seq<MetricDef>, metricKey: string): Option<seq<string>> {
    if metrics == [] then None else
      var m := metrics[|metrics| - 1];
      if m.metricKey == metricKey && GivenAliases(m).Some? then GivenAliases(m)
        else LastAliases(metrics[..|metrics| - 1], metricKey)
  }

  lemma FirstAliases(g: Graph, metricKey: string)
    ensures AliasesOf(At(g, NodeRef(Metric(metricKey)))) == StoredAliases(g, metricKey)
  {
  }

  function MetricDelta(m: MetricDef): Cell { Cell({}, Clean(MetricProps(m.fields, AttributesOf(m)))) }

  lemma DeltaAliases(m: MetricDef)
    ensures "aliases" in MetricDelta(m).props <==> GivenAliases(m).Some?
    ensures GivenAliases(m).Some? ==> AliasesOf(MetricDelta(m)) == GivenAliases(m).value
  {
    var given := MetricProps(m.fields, AttributesOf(m));
    if m.aliases != [] {
      assert given["aliases"] == Texts(m.aliases);
    } else if "aliases" in m.attributes {
      assert given["aliases"] == m.attributes["aliases"];
    } else {
      assert "aliases" !in given;
    }
  }

  lemma OneMetricAliases(g: Graph, m: MetricDef, metricKey: string)
    ensures StoredAliases(Apply(g, Write(NodeRef(Metric(m.metricKey)), MetricDelta(m))), metricKey)
         == if m.metricKey == metricKey && GivenAliases(m).Some? then GivenAliases(m).value
            else StoredAliases(g, metricKey)
  {
    StoredAfter(g, Write(NodeRef(Metric(m.metricKey)), MetricDelta(m)), metricKey);
    DeltaAliases(m);
    MergedAliases(At(g, NodeRef(Metric(metricKey))), MetricDelta(m));
    FirstAliases(g, metricKey);
  }

  lemma {:induction false} CatalogAliases(g: Graph, metrics: seq<MetricDef>, metricKey: string)
    ensures StoredAliases(ApplyAll(g, Gather(MetricWriter(), metrics)), metricKey)
         == match LastAliases(metrics, metricKey) case Some(aliases) => aliases case None => StoredAliases(g, metricKey)
  {
    if metrics == [] {
      assert ApplyAll(g, []) == g;
    } else {
      var init, m := metrics[..|metrics| - 1], metrics[|metrics| - 1];
      CatalogAliases(g, init, metricKey);
      var mid := ApplyAll(g, Gather(MetricWriter(), init));
      assert ApplyAll(g, Gather(MetricWriter(), metrics))
        == Apply(mid, Effect(UpsertMetric(m.metricKey, m.fields, AttributesOf(m)))) by {
        ApplyAllConcat(g, Gather(MetricWriter(), init), MetricWriter()(m));
        ApplyOne(mid, Effect(UpsertMetric(m.metricKey, m.fields, AttributesOf(m))));
      }
      OneMetricAliases(mid, m, metricKey);
    }
  }

  lemma {:induction false} BenchmarksOnly(benchmarks: seq<BenchmarkDef>)
    ensures forall w :: w in Gather(BenchmarkWriter(), benchmarks) ==> w.ref.NodeRef? && w.ref.node.Benchmark?
  {
    if benchmarks != [] { BenchmarksOnly(benchmarks[..|benchmarks| - 1]); }
  }

  lemma BenchmarksKeepAliases(g: Graph, benchmarks: seq<BenchmarkDef>, metricKey: string)
    ensures StoredAliases(ApplyAll(g, Gather(BenchmarkWriter(), benchmarks)), metricKey) == StoredAliases(g, metricKey)
  {
    var ws, r := Gather(BenchmarkWriter(), benchmarks), NodeRef(Metric(metricKey));
    BenchmarksOnly(benchmarks);
    if Targets(ws, r) { var w := MemberTargets(ws, r); }
    FindAfterAll(g, ws, r);
  }

  /** After a pack load each metric has the last aliases its definitions give it, or the ones it
      had when they give none. */
  lemma PackAliases(g: Graph, pack: Pack, metricKey: string)
    ensures StoredAliases(ApplyAll(g, PackWrites(pack)), metricKey)
         == match LastAliases(pack.metrics, metricKey)
            case Some(aliases) => aliases
            case None => StoredAliases(g, metricKey)
  {
    ApplyAllConcat(g, Gather(MetricWriter(), pack.metrics), Gather(BenchmarkWriter(), pack.benchmarks));
    CatalogAliases(g, pack.metrics, metricKey);
    BenchmarksKeepAliases(ApplyAll(g, Gather(MetricWriter(), pack.metrics)), pack.benchmarks, metricKey);
  }

  // ---- What a reader finds -----------------------------------------------------------------

  function GivenText(o: Option<string>): Option<Value> {
    match o case Some(s) => Some(Text(s)) case None => None
  }

  /** The value a definition gives a property: its alias list when not empty, a free attribute, or
      the field of that name. */
  function GivenBy(m: MetricDef, p: string): Option<Value> {
    if p == "aliases" && m.aliases != [] then Some(Texts(m.aliases))
    else if p in m.attributes then (if m.attributes[p] != Null then Some(m.attributes[p]) else None)
    else if p == "formula" then GivenText(m.fields.formula)
    else if p == "unit" then GivenText(m.fields.unit)
    else if p == "numerator_def" then GivenText(m.fields.numeratorDef)
    else if p == "denominator_def" then GivenText(m.fields.denominatorDef)
    else if p == "provenance" then GivenText(m.fields.provenance)
    else None
  }

  function LastGiven(metrics: seq<MetricDef>, metricKey: string, p: string): Option<Value> {
    if metrics == [] then None else
      var m := metrics[|metrics| - 1];
      if m.metricKey == metricKey && GivenBy(m, p).Some? then GivenBy(m, p)
      else LastGiven(metrics[..|metrics| - 1], metricKey, p)
  }

  function LastOfBenchmark(benchmarks: seq<BenchmarkDef>, key: string, p: string): Option<Value> {
    if benchmarks == [] then None else
      var b := benchmarks[|benchmarks| - 1];
      if b.benchmarkKey == key && p in b.attributes && b.attributes[p] != Null then Some(b.attributes[p])
      else LastOfBenchmark(benchmarks[..|benchmarks| - 1], key, p)
  }

  lemma DeltaGives(m: MetricDef, p: string)
    ensures p in MetricDelta(m).props <==> GivenBy(m, p).Some?
    ensures p in MetricDelta(m).props ==> MetricDelta(m).props[p] == GivenBy(m, p).value
  {
    CleanExactly(MetricProps(m.fields, AttributesOf(m)), p);
  }

  lemma {:induction false} NetGiven(metrics: seq<MetricDef>, metricKey: string, p: string)
    ensures var net, last := Net(Gather(MetricWriter(), metrics), NodeRef(Metric(metricKey))).props,
                             LastGiven(metrics, metricKey, p);
            (p in net <==> last.Some?) && (last.Some? ==> net[p] == last.value)
  {
    if metrics != [] {
      var init, m := metrics[..|metrics| - 1], metrics[|metrics| - 1];
      var w := Write(NodeRef(Metric(m.metricKey)), MetricDelta(m));
      NetGiven(init, metricKey, p);
      assert Gather(MetricWriter(), metrics) == Gather(MetricWriter(), init) + [w];
      NetSnoc(Gather(MetricWriter(), init), w, NodeRef(Metric(metricKey)));
      DeltaGives(m, p);
    }
  }

  lemma {:induction false} NetOfBenchmarks(benchmarks: seq<BenchmarkDef>, key: string, p: string)
    ensures var net, last := Net(Gather(BenchmarkWriter(), benchmarks), NodeRef(Benchmark(key))).props,
                             LastOfBenchmark(benchmarks, key, p);
            (p in net <==> last.Some?) && (last.Some? ==> net[p] == last.value)
  {
    if benchmarks != [] {
      var init, b := benchmarks[..|benchmarks| - 1], benchmarks[|benchmarks| - 1];
      var w := Write(NodeRef(Benchmark(b.benchmarkKey)), Cell({}, Clean(b.attributes)));
      NetOfBenchmarks(init, key, p);
      assert Gather(BenchmarkWriter(), benchmarks) == Gather(BenchmarkWriter(), init) + [w];
      NetSnoc(Gather(BenchmarkWriter(), init), w, NodeRef(Benchmark(key)));
      CleanExactly(b.attributes, p);
    }
  }

  lemma {:induction false} MetricsOnly(metrics: seq<MetricDef>)
    ensures forall w :: w in Gather(MetricWriter(), metrics) ==> w.ref.NodeRef? && w.ref.node.Metric?
  {
    if metrics != [] { MetricsOnly(metrics[..|metrics| - 1]); }
  }

  lemma OtherPart(ws: seq<Write>, r: Ref)
    requires forall w :: w in ws ==> w.ref != r
    ensures Net(ws, r) == Zero && !Targets(ws, r)
  {
    if Targets(ws, r) { var w := MemberTargets(ws, r); }
    NetUntargeted(ws, r);
  }

  /** After a pack load every property of a metric has the last value its definitions give it, or
      the one it had; so free attributes reach the node, under their own names. */
  lemma PackMetricTells(g: Graph, pack: Pack, metricKey: string, p: string)
    requires exists i :: 0 <= i < |pack.metrics| && pack.metrics[i].metricKey == metricKey
    ensures Read(ApplyAll(g, PackWrites(pack)), Metric(metricKey), p)
         == if LastGiven(pack.metrics, metricKey, p).Some? then LastGiven(pack.metrics, metricKey, p)
            else Kept(g, Metric(metricKey), p)
  {
    var r, ms, bs := NodeRef(Metric(metricKey)), Gather(MetricWriter(), pack.metrics),
        Gather(BenchmarkWriter(), pack.benchmarks);
    BenchmarksOnly(pack.benchmarks);
    OtherPart(bs, r);
    NetConcat(ms, bs, r);
    MergeZero(Net(ms, r));
    NetGiven(pack.metrics, metricKey, p);
    MetricWritten(pack.metrics, metricKey);
    TargetsConcat(ms, bs, r);
    FindAfterAll(g, PackWrites(pack), r);
  }

  lemma {:induction false} MetricWritten(metrics: seq<MetricDef>, metricKey: string)
    requires exists i :: 0 <= i < |metrics| && metrics[i].metricKey == metricKey
    ensures Targets(Gather(MetricWriter(), metrics), NodeRef(Metric(metricKey)))
  {
    var init, m := metrics[..|metrics| - 1], metrics[|metrics| - 1];
    var w := Write(NodeRef(Metric(m.metricKey)), MetricDelta(m));
    assert Gather(MetricWriter(), metrics) == Gather(MetricWriter(), init) + [w];
    NetSnoc(Gather(MetricWriter(), init), w, NodeRef(Metric(metricKey)));
    if m.metricKey != metricKey {
      assert forall i :: 0 <= i < |init| ==> init[i] == metrics[i];
      MetricWritten(init, metricKey);
    }
  }

  lemma PackBenchmarkTells(g: Graph, pack: Pack, key: string, p: string)
    ensures LastOfBenchmark(pack.benchmarks, key, p).Some? ==>
              Read(ApplyAll(g, PackWrites(pack)), Benchmark(key), p) == LastOfBenchmark(pack.benchmarks, key, p)
  {
    var r, ms, bs := NodeRef(Benchmark(key)), Gather(MetricWriter(), pack.metrics),
        Gather(BenchmarkWriter(), pack.benchmarks);
    MetricsOnly(pack.metrics);
    OtherPart(ms, r);
    NetConcat(ms, bs, r);
    MergeZero(Net(bs, r));
    NetOfBenchmarks(pack.benchmarks, key, p);
    FindAfterAll(g, PackWrites(pack), r);
    if !Targets(PackWrites(pack), r) { NetUntargeted(PackWrites(pack), r); }
  }

  /** A write that leaves the key property of a metric alone. */
  predicate KeepsKey(w: Write) {
    w.ref.NodeRef? && w.ref.node.Metric? ==> "metric_key" !in w.delta.props
  }

  lemma KeyedStep(g: Graph, w: Write)
    requires Keyed(g) && KeepsKey(w)
    ensures Keyed(Apply(g, w))
  {
    forall k | Metric(k) in Apply(g, w).nodes.cells
      ensures MetricKeyOf(NodeView(Metric(k), Apply(g, w).nodes.cells[Metric(k)])) == k
    {
      FindAfter(g, w, NodeRef(Metric(k)));
      if w.ref == NodeRef(Metric(k)) { assert MetricKeyOf(NodeView(Metric(k), At(g, w.ref))) == k; }
    }
  }

  lemma {:induction false} KeyedRun(g: Graph, ws: seq<Write>)
    requires Keyed(g) && forall w :: w in ws ==> KeepsKey(w)
    ensures Keyed(ApplyAll(g, ws))
  {
    if ws != [] {
      var init, w := ws[..|ws| - 1], ws[|ws| - 1];
      assert w in ws && forall v :: v in init ==> v in ws;
      KeyedRun(g, init);
      assert ApplyAll(g, ws) == Apply(ApplyAll(g, init), w) by { ApplyAllLast(g, ws); }
      KeyedStep(ApplyAll(g, init), w);
    }
  }

  lemma {:induction false} CatalogKeepsKeys(metrics: seq<MetricDef>)
    requires forall m :: m in metrics ==> "metric_key" !in m.attributes
    ensures forall w :: w in Gather(MetricWriter(), metrics) ==> KeepsKey(w)
  {
    if metrics != [] {
      var init, m := metrics[..|metrics| - 1], metrics[|metrics| - 1];
      assert m in metrics && forall x :: x in init ==> x in metrics;
      CatalogKeepsKeys(init);
      assert "metric_key" !in MetricProps(m.fields, AttributesOf(m));
    }
  }

  /** After a pack load every metric still carries its own key, which the index and the term
      table are read from. */
  lemma PackKeepsKeys(g: Graph, pack: Pack)
    requires Keyed(g) && forall m :: m in pack.metrics ==> "metric_key" !in m.attributes
    ensures Keyed(ApplyAll(g, PackWrites(pack)))
  {
    CatalogKeepsKeys(pack.metrics);
    BenchmarksOnly(pack.benchmarks);
    KeyedRun(g, PackWrites(pack));
  }

  lemma IndexedHasLister(g: Graph, name: string) returns (k: string)
    requires name in Index(g)
    ensures ListedIn(StoredAliases(g, k), name)
  {
    var view := MetricView(g);
    IndexEntry(view, name);
    var v := view[LastListing(view, name)];
    ViewCells(g, v);
    k := v.id.metricKey;
  }

  lemma ListerIsIndexed(g: Graph, name: string, k: string)
    requires ListedIn(StoredAliases(g, k), name)
    ensures name in Index(g)
  {
    var view := MetricView(g);
    var v := NodeView(Metric(k), At(g, NodeRef(Metric(k))));
    assert v in view by { NodesByLabelMembers(g, "Metric", v); }
    var i :| 0 <= i < |view| && view[i] == v;
    assert Lists(view[i], name);
    IndexEntry(view, name);
  }

  /** A name is at tier 1 exactly when some metric's stored aliases list it. */
  lemma IndexedByAliases(g: Graph, name: string)
    ensures name in Index(g) <==> exists k :: ListedIn(StoredAliases(g, k), name)
  {
    if name in Index(g) { var k := IndexedHasLister(g, name); }
    if k :| ListedIn(StoredAliases(g, k), name) { ListerIsIndexed(g, name, k); }
  }

  /** The aliases of a metric after a pack is loaded over `g`. */
  function AliasesAfter(g: Graph, pack: Pack, k: string): seq<string> {
    match LastAliases(pack.metrics, k) case Some(aliases) => aliases case None => StoredAliases(g, k)
  }

  /** Tier 1 after a pack load, exactly: what that pack lists, and what was listed by metrics
      it gives no aliases. */
  lemma TierOneAfterPack(g: Graph, pack: Pack, name: string)
    ensures name in Index(ApplyAll(g, PackWrites(pack))) <==> exists k :: ListedIn(AliasesAfter(g, pack, k), name)
  {
    var after := ApplyAll(g, PackWrites(pack));
    IndexedByAliases(after, name);
    forall k ensures StoredAliases(after, k) == AliasesAfter(g, pack, k) { PackAliases(g, pack, k); }
  }

  lemma LearnedListed(g: Graph, metricKey: string, alias: string)
    ensures ListedIn(LearnedAliases(g, metricKey, alias), Casefold(alias))
  {
    var learned := LearnedAliases(g, metricKey, alias);
    assert alias in learned;
    var i :| 0 <= i < |learned| && learned[i] == alias;
    assert Casefold(learned[i]) == Casefold(alias);
  }

  /** A learned alias stays on its metric through a reload exactly when that pack gives the
      metric no aliases, or gives it that one; and the name stays at tier 1 exactly when the
      pack gives the metric no aliases, or some metric would list it anyway. */
  lemma LearnedSurvivesReload(g: Graph, pack: Pack, metricKey: string, alias: string)
    ensures var after := ApplyAll(LearnAlias(g, metricKey, alias), PackWrites(pack));
            var given := LastAliases(pack.metrics, metricKey);
            && (alias in StoredAliases(after, metricKey) <==> given.None? || alias in given.value)
            && (Casefold(alias) in Index(after) <==>
                  given.None? || exists k :: ListedIn(AliasesAfter(g, pack, k), Casefold(alias)))
  {
    var learned := LearnAlias(g, metricKey, alias);
    PackAliases(learned, pack, metricKey);
    LearnedStored(g, metricKey, alias, metricKey);
    TierOneAfterPack(learned, pack, Casefold(alias));
    LearnedOrListed(g, pack, metricKey, alias);
  }

  lemma LearnedAfter(g: Graph, pack: Pack, metricKey: string, alias: string, k: string)
    ensures AliasesAfter(LearnAlias(g, metricKey, alias), pack, k)
         == if k == metricKey && LastAliases(pack.metrics, k).None? then LearnedAliases(g, metricKey, alias)
            else AliasesAfter(g, pack, k)
  {
    LearnedStored(g, metricKey, alias, k);
  }

  lemma LearnedOrListed(g: Graph, pack: Pack, metricKey: string, alias: string)
    ensures (exists k :: ListedIn(AliasesAfter(LearnAlias(g, metricKey, alias), pack, k), Casefold(alias))) <==>
            || LastAliases(pack.metrics, metricKey).None?
            || exists k :: ListedIn(AliasesAfter(g, pack, k), Casefold(alias))
  {
    var learned, name := LearnAlias(g, metricKey, alias), Casefold(alias);
    if LastAliases(pack.metrics, metricKey).None? {
      LearnedAfter(g, pack, metricKey, alias, metricKey);
      LearnedListed(g, metricKey, alias);
    } else {
      forall k ensures AliasesAfter(learned, pack, k) == AliasesAfter(g, pack, k) {
        LearnedAfter(g, pack, metricKey, alias, k);
      }
    }
  }

  /** A pack loaded into an empty store leaves the aliases it gives, also where it is loaded
      again. */
  lemma LoadedTwiceFromEmpty(pack: Pack, k: string)
    ensures var once := ApplyAll(Empty, PackWrites(pack));
            AliasesAfter(once, pack, k)
              == match LastAliases(pack.metrics, k) case Some(aliases) => aliases case None => []
  {
    PackAliases(Empty, pack, k);
  }

  /** So write-back does not survive reloading: after a pack is loaded, teach one of the
      metrics it gives aliases to any name it does not list, and load it again. */
  lemma ReloadForgets(pack: Pack, metricKey: string, alias: string)
    requires LastAliases(pack.metrics, metricKey).Some?
    requires forall k :: LastAliases(pack.metrics, k).Some? ==>
               !ListedIn(LastAliases(pack.metrics, k).value, Casefold(alias))
    ensures var once := ApplyAll(Empty, PackWrites(pack));
            var learned := LearnAlias(once, metricKey, alias);
            && alias in StoredAliases(learned, metricKey) && Casefold(alias) in Index(learned)
            && alias !in StoredAliases(ApplyAll(learned, PackWrites(pack)), metricKey)
            && Casefold(alias) !in Index(ApplyAll(learned, PackWrites(pack)))
  {
    var once := ApplyAll(Empty, PackWrites(pack));
    assert Casefold(alias) in Index(LearnAlias(once, metricKey, alias)) by { LearnEffect(once, metricKey, alias); }
    LearnedStored(once, metricKey, alias, metricKey);
    LearnedSurvivesReload(once, pack, metricKey, alias);
    forall k ensures !ListedIn(AliasesAfter(once, pack, k), Casefold(alias)) { LoadedTwiceFromEmpty(pack, k); }
    MemberIsListed(LastAliases(pack.metrics, metricKey).value, alias);
  }

  lemma MemberIsListed(aliases: seq<string>, alias: string)
    ensures alias in aliases ==> ListedIn(aliases, Casefold(alias))
  {
    if alias in aliases {
      var i :| 0 <= i < |aliases| && aliases[i] == alias;
      assert Casefold(aliases[i]) == Casefold(alias);
    }
  }

  /** One such input: a pack whose only metric has the alias `len`, taught `lenght`. */
  lemma ReloadForgetsLenght(pack: Pack, m: MetricDef)
    requires pack.name == "w" && pack.namespace == None && pack.metrics == [m]
    requires m.metricKey == "w.length" && m.aliases == ["len"] && m.attributes == map[]
    ensures ValidPack(pack)
    ensures var learned := LearnAlias(ApplyAll(Empty, PackWrites(pack)), "w.length", "lenght");
            Casefold("lenght") in Index(learned) && Casefold("lenght") !in Index(ApplyAll(learned, PackWrites(pack)))
  {
    LengthIsWidget(pack, m);
    assert LastAliases(pack.metrics, "w.length") == Some(m.aliases)
        && forall k :: LastAliases(pack.metrics, k).Some? ==> LastAliases(pack.metrics, k).value == m.aliases by {
      OneMetricPack(pack.metrics, m);
    }
    LenUnlisted(m.aliases, "lenght");
    ReloadForgets(pack, "w.length", "lenght");
  }

  lemma LenUnlisted(aliases: seq<string>, alias: string)
    requires aliases == ["len"] && |alias| == 6
    ensures !ListedIn(aliases, Casefold(alias))
  {
    assert |Casefold(aliases[0])| == 3;
  }

  lemma LengthIsWidget(pack: Pack, m: MetricDef)
    requires pack.name == "w" && pack.namespace == None && pack.metrics == [m] && m.metricKey == "w.length"
    ensures ValidPack(pack)
  {
    SplitJoined("w", '.', "length");
    assert m.metricKey == "w" + ['.'] + "length";
  }

  lemma OneMetricPack(metrics: seq<MetricDef>, m: MetricDef)
    requires metrics == [m] && m.aliases != []
    ensures forall k :: LastAliases(metrics, k) == if k == m.metricKey then Some(m.aliases) else None
  {
    assert metrics[..0] == [];
  }
}
