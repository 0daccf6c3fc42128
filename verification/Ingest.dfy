/** The ingest driver: discover, skip what the ledger has, fetch, parse, load, mark done. */
module Ingest {
  import opened Wrappers
  import opened Graphs
  import opened GraphLaws
  import opened Client
  import opened Ir
  import opened Resolvers
  import opened Pipeline
  import opened LoadLaws
  import opened Checkpoints

  datatype WorkItem = WorkItem(itemId: string, sourceRef: string, artifactType: string, metadata: map<string, string>) {
    function Key(): ItemKey { ItemKey(sourceRef, itemId) }
  }

  /** What a source surfaces, in discovery order, and what each item parses to, apart from the
      time at which it is fetched. */
  datatype Source = Source(items: seq<WorkItem>, content: WorkItem -> ParsedBundle) {
    function Parse(item: WorkItem, fetchedAt: string): ParsedBundle {
      FetchedAt(content(item), fetchedAt)
    }
  }

  /** The clock reading at which each item is fetched. */
  type Times = map<ItemKey, string>

  function TimeOf(times: Times, item: WorkItem): string {
    if item.Key() in times then times[item.Key()] else ""
  }

  datatype IngestReport = IngestReport(
    itemsIngested: nat, itemsSkipped: nat, resolutions: seq<Resolution>, bundles: seq<ParsedBundle>)

  /** What outlives the process: the graph and a durable ledger. */
  datatype Durable = Durable(graph: Graph, done: set<ItemKey>)

  function IngestOne(allow: Allow, source: Source, d: Durable, item: WorkItem, times: Times): Durable {
    if item.Key() in d.done then d else
      Durable(Loaded(allow, d.graph, source.Parse(item, TimeOf(times, item))), d.done + {item.Key()})
  }

  /** Uninterrupted ingestion of a list of items. */
  function IngestAll(allow: Allow, source: Source, d: Durable, items: seq<WorkItem>, times: Times): Durable {
    if items == [] then d else
      IngestOne(allow, source, IngestAll(allow, source, d, items[..|items| - 1], times), items[|items| - 1], times)
  }

  /** The upserts that one item makes. */
  function ItemWrites(allow: Allow, source: Source, d: Durable, item: WorkItem, times: Times): seq<Write> {
    if item.Key() in d.done then [] else LoadWrites(allow, Index(d.graph), source.Parse(item, TimeOf(times, item)))
  }

  /** The upserts of an uninterrupted run, in order. */
  function IngestWrites(allow: Allow, source: Source, d: Durable, items: seq<WorkItem>, times: Times): seq<Write> {
    if items == [] then [] else
      var init, item := items[..|items| - 1], items[|items| - 1];
      IngestWrites(allow, source, d, init, times)
        + ItemWrites(allow, source, IngestAll(allow, source, d, init, times), item, times)
  }

  function Keys(items: seq<WorkItem>): set<ItemKey> {
    if items == [] then {} else Keys(items[..|items| - 1]) + {items[|items| - 1].Key()}
  }

  /** The items a ledger lets through, each at its first occurrence. */
  function Pending(done: set<ItemKey>, items: seq<WorkItem>): seq<WorkItem> {
    if items == [] then [] else
      var init, item := items[..|items| - 1], items[|items| - 1];
      Pending(done, init) + if item.Key() in done + Keys(init) then [] else [item]
  }

  function Bundles(source: Source, items: seq<WorkItem>, times: Times): seq<ParsedBundle> {
    seq(|items|, i requires 0 <= i < |items| => source.Parse(items[i], TimeOf(times, items[i])))
  }

  function AllResolutions(f: Funnel, g: Graph, bundles: seq<ParsedBundle>): seq<Resolution> {
    if bundles == [] then [] else
      AllResolutions(f, g, bundles[..|bundles| - 1]) + Decisions(f, g, bundles[|bundles| - 1].IterColumns())
  }

  // ---- Accounting --------------------------------------------------------------------------

  lemma {:induction false} IngestedKeys(allow: Allow, source: Source, d: Durable, items: seq<WorkItem>, times: Times)
    ensures IngestAll(allow, source, d, items, times).done == d.done + Keys(items)
  {
    if items != [] { IngestedKeys(allow, source, d, items[..|items| - 1], times); }
  }

  lemma {:induction false} MetricsUntouched(allow: Allow, source: Source, d: Durable, items: seq<WorkItem>,
                                            times: Times)
    ensures MetricView(IngestAll(allow, source, d, items, times).graph) == MetricView(d.graph)
  {
    if items != [] {
      var init, item := items[..|items| - 1], items[|items| - 1];
      MetricsUntouched(allow, source, d, init, times);
      LoadKeepsMetrics(allow, IngestAll(allow, source, d, init, times).graph, source.Parse(item, TimeOf(times, item)));
    }
  }

  /** As many items are ingested as there are distinct keys not yet done. */
  lemma {:induction false} PendingCount(done: set<ItemKey>, items: seq<WorkItem>)
    ensures |Pending(done, items)| == |Keys(items) - done| <= |items|
  {
    if items != [] {
      var init, key := items[..|items| - 1], items[|items| - 1].Key();
      PendingCount(done, init);
      if key in done + Keys(init) {
        assert Keys(items) - done == Keys(init) - done;
      } else {
        assert Keys(items) - done == (Keys(init) - done) + {key};
      }
    }
  }

  lemma {:induction false} AllDone(allow: Allow, source: Source, d: Durable, items: seq<WorkItem>, times: Times)
    requires Keys(items) <= d.done
    ensures IngestAll(allow, source, d, items, times) == d && Pending(d.done, items) == []
  {
    if items != [] { AllDone(allow, source, d, items[..|items| - 1], times); }
  }

  /** Ledger accounting: afterwards the ledger is the old one plus the discovered keys, the
      count of ingested items is the number of distinct keys it lacked, and an immediate
      re-run, at whatever times, writes nothing. */
  lemma LedgerAccounting(allow: Allow, source: Source, d: Durable, times: Times, again: Times)
    ensures var after := IngestAll(allow, source, d, source.items, times);
            && after.done == d.done + Keys(source.items)
            && |Pending(d.done, source.items)| == |Keys(source.items) - d.done|
            && IngestAll(allow, source, after, source.items, again) == after
            && Pending(after.done, source.items) == []
  {
    IngestedKeys(allow, source, d, source.items, times);
    PendingCount(d.done, source.items);
    AllDone(allow, source, IngestAll(allow, source, d, source.items, times), source.items, again);
  }

  /** Items share a key exactly when they share the source and the id. */
  lemma KeyExactly(a: WorkItem, b: WorkItem)
    ensures a.Key() == b.Key() <==> a.sourceRef == b.sourceRef && a.itemId == b.itemId
  {
  }

  /** A bundle is the item's content, fetched at the time given for its source and id. */
  lemma ParsedSpelled(source: Source, item: WorkItem, times: Times)
    ensures var b, c, key := source.Parse(item, TimeOf(times, item)), source.content(item),
                             ItemKey(item.sourceRef, item.itemId);
            && b.columns == c.columns && b.documents == c.documents && b.entities == c.entities
            && b.relations == c.relations
            && b.provenance.sourceRef == c.provenance.sourceRef
            && b.provenance.connectorVersion == c.provenance.connectorVersion
            && (key in times ==> b.provenance.fetchedAt == times[key])
  {
  }

  // ---- Two sources -------------------------------------------------------------------------

  lemma {:induction false} SamePending(done: set<ItemKey>, later: set<ItemKey>, items: seq<WorkItem>)
    requires forall item :: item in items ==> (item.Key() in done <==> item.Key() in later)
    ensures Pending(done, items) == Pending(later, items)
  {
    if items != [] {
      var init := items[..|items| - 1];
      assert items[|items| - 1] in items && forall item :: item in init ==> item in items;
      SamePending(done, later, init);
    }
  }

  lemma {:induction false} SameResolutions(f: Funnel, g: Graph, h: Graph, bundles: seq<ParsedBundle>)
    requires MetricView(g) == MetricView(h)
    ensures AllResolutions(f, g, bundles) == AllResolutions(f, h, bundles)
  {
    if bundles != [] {
      SameResolutions(f, g, h, bundles[..|bundles| - 1]);
      SameDecisions(f, g, h, bundles[|bundles| - 1].IterColumns());
    }
  }

  lemma {:induction false} KeysOfSource(items: seq<WorkItem>, key: ItemKey)
    requires key in Keys(items)
    ensures exists item :: item in items && item.sourceRef == key.sourceRef && item.itemId == key.itemId
  {
    var init, last := items[..|items| - 1], items[|items| - 1];
    assert last in items && forall item :: item in init ==> item in items;
    if key in Keys(init) {
      KeysOfSource(init, key);
    } else {
      KeyExactly(last, last);
    }
  }

  /** Ids of different sources do not collide: whatever a run of one source has marked, a run of
      another, on that ledger and that graph, lets through the same items, and reports the same
      counts, bundles and resolutions as if the first had not taken place. */
  lemma SourcesApart(allow: Allow, f: Funnel, a: Source, b: Source, d: Durable, times: Times, report: IngestReport,
                     again: Times)
    requires forall x, y :: x in a.items && y in b.items ==> x.sourceRef != y.sourceRef
    ensures var after := IngestAll(allow, a, d, a.items, times);
            && Pending(after.done, b.items) == Pending(d.done, b.items)
            && (Reports(report, f, b, after, |b.items|, again) <==> Reports(report, f, b, d, |b.items|, again))
  {
    var after := IngestAll(allow, a, d, a.items, times);
    IngestedKeys(allow, a, d, a.items, times);
    forall item | item in b.items ensures item.Key() in d.done <==> item.Key() in after.done {
      if item.Key() in Keys(a.items) { KeysOfSource(a.items, item.Key()); }
    }
    SamePending(d.done, after.done, b.items);
    assert b.items[..|b.items|] == b.items;
    MetricsUntouched(allow, a, d, a.items, times);
    SameResolutions(f, d.graph, after.graph, Bundles(b, Pending(d.done, b.items), again));
  }

  // ---- The driver --------------------------------------------------------------------------

  lemma {:induction false} EscalatedConcat(rs: seq<Resolution>, more: seq<Resolution>)
    ensures EscalatedOf(rs + more) == EscalatedOf(rs) + EscalatedOf(more)
  {
    if more == [] {
      assert rs + more == rs;
    } else {
      var init := more[..|more| - 1];
      EscalatedConcat(rs, init);
      assert (rs + more)[..|rs + more| - 1] == rs + init;
    }
  }

  lemma PendingStep(source: Source, done: set<ItemKey>, times: Times, i: nat)
    requires i < |source.items|
    ensures var items, item := source.items, source.items[i];
            && Keys(items[..i + 1]) == Keys(items[..i]) + {item.Key()}
            && Pending(done, items[..i + 1]) == Pending(done, items[..i])
               + (if item.Key() in done + Keys(items[..i]) then [] else [item])
            && Bundles(source, Pending(done, items[..i]) + [item], times)
                 == Bundles(source, Pending(done, items[..i]), times) + [source.Parse(item, TimeOf(times, item))]
  {
    assert source.items[..i + 1][..i] == source.items[..i];
  }

  lemma IngestStep(allow: Allow, source: Source, d: Durable, times: Times, i: nat)
    requires i < |source.items|
    ensures IngestAll(allow, source, d, source.items[..i + 1], times)
         == IngestOne(allow, source, IngestAll(allow, source, d, source.items[..i], times), source.items[i], times)
    ensures IngestWrites(allow, source, d, source.items[..i + 1], times)
         == IngestWrites(allow, source, d, source.items[..i], times)
              + ItemWrites(allow, source, IngestAll(allow, source, d, source.items[..i], times), source.items[i], times)
  {
    assert source.items[..i + 1][..i] == source.items[..i];
  }

  lemma ResolutionsStep(f: Funnel, allow: Allow, source: Source, d: Durable, times: Times, i: nat,
                        bundles: seq<ParsedBundle>, b: ParsedBundle)
    requires i <= |source.items|
    ensures AllResolutions(f, d.graph, bundles + [b])
         == AllResolutions(f, d.graph, bundles)
              + Decisions(f, IngestAll(allow, source, d, source.items[..i], times).graph, b.IterColumns())
  {
    assert (bundles + [b])[..|bundles|] == bundles;
    MetricsUntouched(allow, source, d, source.items[..i], times);
    SameDecisions(f, IngestAll(allow, source, d, source.items[..i], times).graph, d.graph, b.IterColumns());
  }

  /** The report of a run over the first `n` items. */
  ghost predicate Reports(report: IngestReport, f: Funnel, source: Source, d: Durable, n: nat, times: Times)
    requires n <= |source.items|
  {
    var pending := Pending(d.done, source.items[..n]);
    && report.itemsIngested == |pending| && report.itemsSkipped == n - |pending|
    && report.bundles == Bundles(source, pending, times)
    && report.resolutions == AllResolutions(f, d.graph, report.bundles)
  }

  /** Every discovered item is counted once, as ingested or as skipped, and as many are
      ingested as there are distinct keys the ledger lacked, even if discovery repeats items. */
  lemma RunAccounting(report: IngestReport, f: Funnel, source: Source, d: Durable, times: Times)
    requires Reports(report, f, source, d, |source.items|, times)
    ensures report.itemsIngested + report.itemsSkipped == |source.items|
    ensures report.itemsIngested == |Keys(source.items) - d.done|
    ensures |report.bundles| == report.itemsIngested
  {
    assert source.items[..|source.items|] == source.items;
    PendingCount(d.done, source.items);
  }

  /** A run that a rejected relation ended at item `n`: everything before is ingested, the
      item's own writes up to the rejection have happened, and it is not marked done. */
  ghost predicate Stopped(allow: Allow, source: Source, start: Durable, end: Durable, n: nat, times: Times)
    requires n < |source.items|
  {
    var before, item := IngestAll(allow, source, start, source.items[..n], times), source.items[n];
    && !Admitted(allow, source.content(item))
    && item.Key() !in before.done
    && end == Durable(Loaded(allow, before.graph, source.Parse(item, TimeOf(times, item))), before.done)
  }

  function Skipped(r: IngestReport): IngestReport { r.(itemsSkipped := r.itemsSkipped + 1) }

  function Extended(r: IngestReport, bundle: ParsedBundle, resolutions: seq<Resolution>): IngestReport {
    IngestReport(r.itemsIngested + 1, r.itemsSkipped, r.resolutions + resolutions, r.bundles + [bundle])
  }

  /** The report after one more item. */
  function Reported(r: IngestReport, f: Funnel, source: Source, d: Durable, item: WorkItem,
                    times: Times): IngestReport {
    if item.Key() in d.done then Skipped(r) else
      var bundle := source.Parse(item, TimeOf(times, item));
      Extended(r, bundle, Decisions(f, d.graph, bundle.IterColumns()))
  }

  lemma ReportStep(report: IngestReport, f: Funnel, allow: Allow, source: Source, d: Durable, i: nat, times: Times)
    requires i < |source.items| && Reports(report, f, source, d, i, times)
    ensures var now := IngestAll(allow, source, d, source.items[..i], times);
            Reports(Reported(report, f, source, now, source.items[i], times), f, source, d, i + 1, times)
  {
    var item := source.items[i];
    IngestedKeys(allow, source, d, source.items[..i], times);
    PendingStep(source, d.done, times, i);
    ResolutionsStep(f, allow, source, d, times, i, report.bundles, source.Parse(item, TimeOf(times, item)));
  }

  method IngestItem(source: Source, times: Times, client: GraphClient, resolver: Resolver,
                    checkpointer: InMemoryCheckpointer,
                    item: WorkItem, report: IngestReport) returns (r: Result<IngestReport>)
    requires resolver.client.store == client.store
    modifies client.store, resolver.queue, checkpointer
    ensures var key := ItemKey(item.sourceRef, item.itemId);
            && (key in old(checkpointer.done) ==>
                  && client.History() == old(client.History()) && checkpointer.done == old(checkpointer.done)
                  && r == Ok(report.(itemsSkipped := report.itemsSkipped + 1)))
            && (key !in old(checkpointer.done) && r.Ok? ==> checkpointer.done == old(checkpointer.done) + {key})
    ensures var start := Durable(old(client.Contents()), old(checkpointer.done));
            var end := Durable(client.Contents(), checkpointer.done);
            var bundle := source.Parse(item, TimeOf(times, item));
            && client.store.log == old(client.store.log) + ItemWrites(client.AllowLists(), source, start, item, times)
            && (r.Ok? <==> ItemKey(item.sourceRef, item.itemId) in start.done
                           || Admitted(client.AllowLists(), source.content(item)))
            && match r
            case Ok(next) =>
              && end == IngestOne(client.AllowLists(), source, start, item, times)
              && next == Reported(report, resolver.funnel, source, start, item, times)
              && resolver.queue.items == old(resolver.queue.items)
                 + EscalatedOf(next.resolutions[|report.resolutions|..])
            case Err(error) =>
              && RejectedBy(client.AllowLists(), source.content(item), error)
              && end == Durable(Loaded(client.AllowLists(), start.graph, bundle), start.done)
              && resolver.queue.items == old(resolver.queue.items)
  {
    var seen := checkpointer.HasSeen(item.sourceRef, item.itemId);
    if seen {
      return Ok(Skipped(report));
    }
    var bundle := source.Parse(item, TimeOf(times, item));
    var loaded := LoadBundle(client, resolver, bundle);
    if loaded.Err? {
      return Err(loaded.error);
    }
    checkpointer.MarkDone(item.sourceRef, item.itemId);
    r := Ok(Extended(report, bundle, loaded.value));
    assert r.value.resolutions[|report.resolutions|..] == loaded.value;
  }

  /** No item that the ledger lets through among the first `n` holds a forbidden relation. */
  ghost predicate PendingAdmitted(allow: Allow, source: Source, done: set<ItemKey>, n: nat)
    requires n <= |source.items|
  {
    forall item :: item in Pending(done, source.items[..n]) ==> Admitted(allow, source.content(item))
  }

  lemma AdmittedStep(allow: Allow, source: Source, start: Durable, times: Times, i: nat)
    requires i < |source.items| && PendingAdmitted(allow, source, start.done, i)
    ensures var item, now := source.items[i], IngestAll(allow, source, start, source.items[..i], times);
            PendingAdmitted(allow, source, start.done, i + 1) <==>
            item.Key() in now.done || Admitted(allow, source.content(item))
  {
    var item := source.items[i];
    IngestedKeys(allow, source, start, source.items[..i], times);
    PendingStep(source, start.done, times, i);
    if item.Key() !in start.done + Keys(source.items[..i]) {
      assert item in Pending(start.done, source.items[..i + 1]);
    }
  }

  lemma {:induction false} StillPending(done: set<ItemKey>, items: seq<WorkItem>, n: nat, item: WorkItem)
    requires n <= |items| && item in Pending(done, items[..n])
    ensures item in Pending(done, items)
  {
    if n < |items| {
      var init := items[..|items| - 1];
      assert init[..n] == items[..n];
      StillPending(done, init, n, item);
    } else {
      assert items[..n] == items;
    }
  }

  /** A run that stopped had a forbidden relation in a pending item. */
  lemma StoppedIsRejected(allow: Allow, source: Source, start: Durable, end: Durable, n: nat, times: Times)
    requires n < |source.items| && Stopped(allow, source, start, end, n, times)
    ensures !PendingAdmitted(allow, source, start.done, |source.items|)
  {
    var item := source.items[n];
    IngestedKeys(allow, source, start, source.items[..n], times);
    PendingStep(source, start.done, times, n);
    assert item in Pending(start.done, source.items[..n + 1]);
    StillPending(start.done, source.items, n + 1, item);
    assert source.items[..|source.items|] == source.items;
  }

  /** Where an uninterrupted run stands after `n` items. */
  ghost predicate Progress(allow: Allow, f: Funnel, source: Source, start: Durable, times: Times, n: nat,
                           now: Durable, report: IngestReport, queue0: seq<Resolution>, queue: seq<Resolution>,
                           log0: seq<Write>, log: seq<Write>)
    requires n <= |source.items|
  {
    && log == log0 + IngestWrites(allow, source, start, source.items[..n], times)
    && PendingAdmitted(allow, source, start.done, n)
    && now == IngestAll(allow, source, start, source.items[..n], times)
    && Reports(report, f, source, start, n, times)
    && queue == queue0 + EscalatedOf(report.resolutions)
  }

  lemma QueueStep(queue0: seq<Resolution>, queue: seq<Resolution>, rs: seq<Resolution>, all: seq<Resolution>)
    requires queue == queue0 + EscalatedOf(rs)
    requires |rs| <= |all| && all[..|rs|] == rs
    ensures queue + EscalatedOf(all[|rs|..]) == queue0 + EscalatedOf(all)
  {
    var a, b := EscalatedOf(rs), EscalatedOf(all[|rs|..]);
    assert EscalatedOf(all) == a + b by {
      assert all == rs + all[|rs|..];
      EscalatedConcat(rs, all[|rs|..]);
    }
    Associative(queue0, a, b);
  }

  lemma ProgressStep(allow: Allow, f: Funnel, source: Source, start: Durable, times: Times, i: nat,
                     now: Durable, report: IngestReport, queue0: seq<Resolution>, queue: seq<Resolution>,
                     log0: seq<Write>, log: seq<Write>)
    requires i < |source.items| && Progress(allow, f, source, start, times, i, now, report, queue0, queue, log0, log)
    requires source.items[i].Key() in now.done || Admitted(allow, source.content(source.items[i]))
    ensures var next, item := Reported(report, f, source, now, source.items[i], times), source.items[i];
            Progress(allow, f, source, start, times, i + 1, IngestOne(allow, source, now, item, times), next,
                     queue0, queue + EscalatedOf(next.resolutions[|report.resolutions|..]),
                     log0, log + ItemWrites(allow, source, now, item, times))
  {
    var next := Reported(report, f, source, now, source.items[i], times);
    AdmittedStep(allow, source, start, times, i);
    QueueStep(queue0, queue, report.resolutions, next.resolutions);
    assert log + ItemWrites(allow, source, now, source.items[i], times)
        == log0 + IngestWrites(allow, source, start, source.items[..i + 1], times) by {
      IngestStep(allow, source, start, times, i);
      Associative(log0, IngestWrites(allow, source, start, source.items[..i], times),
                  ItemWrites(allow, source, now, source.items[i], times));
    }
    assert IngestOne(allow, source, now, source.items[i], times)
      == IngestAll(allow, source, start, source.items[..i + 1], times) by {
      IngestStep(allow, source, start, times, i);
    }
    assert Reports(next, f, source, start, i + 1, times) by {
      ReportStep(report, f, allow, source, start, i, times);
    }
  }

  /** What a run that stopped at item `n` has written and queued: the item's own upserts up to
      the rejection, and the escalations of the items before it. */
  ghost predicate StoppedTrace(allow: Allow, f: Funnel, source: Source, start: Durable, n: nat, times: Times,
                               queue0: seq<Resolution>, queue: seq<Resolution>, log0: seq<Write>, log: seq<Write>)
    requires n < |source.items|
  {
    var bundles := Bundles(source, Pending(start.done, source.items[..n]), times);
    && log == log0 + IngestWrites(allow, source, start, source.items[..n + 1], times)
    && queue == queue0 + EscalatedOf(AllResolutions(f, start.graph, bundles))
  }

  lemma TraceStep(allow: Allow, f: Funnel, source: Source, start: Durable, times: Times, i: nat,
                  now: Durable, report: IngestReport, queue0: seq<Resolution>, queue: seq<Resolution>,
                  log0: seq<Write>, log: seq<Write>)
    requires i < |source.items| && Progress(allow, f, source, start, times, i, now, report, queue0, queue, log0, log)
    ensures StoppedTrace(allow, f, source, start, i, times, queue0, queue,
                         log0, log + ItemWrites(allow, source, now, source.items[i], times))
  {
    IngestStep(allow, source, start, times, i);
    Associative(log0, IngestWrites(allow, source, start, source.items[..i], times),
                ItemWrites(allow, source, now, source.items[i], times));
  }

  lemma ProgressEnds(allow: Allow, f: Funnel, source: Source, start: Durable, times: Times,
                     now: Durable, report: IngestReport, queue0: seq<Resolution>, queue: seq<Resolution>,
                     log0: seq<Write>, log: seq<Write>)
    requires Progress(allow, f, source, start, times, |source.items|, now, report, queue0, queue, log0, log)
    ensures log == log0 + IngestWrites(allow, source, start, source.items, times)
    ensures now == IngestAll(allow, source, start, source.items, times)
    ensures Reports(report, f, source, start, |source.items|, times)
    ensures PendingAdmitted(allow, source, start.done, |source.items|)
    ensures queue == queue0 + EscalatedOf(report.resolutions)
  {
    assert source.items[..|source.items|] == source.items;
  }

  method IngestNext(source: Source, times: Times, client: GraphClient, resolver: Resolver,
                    checkpointer: InMemoryCheckpointer,
                    i: nat, report: IngestReport, ghost start: Durable, ghost queue0: seq<Resolution>,
                    ghost log0: seq<Write>)
    returns (r: Result<IngestReport>)
    requires resolver.client.store == client.store && i < |source.items|
    requires Progress(client.AllowLists(), resolver.funnel, source, start, times, i,
                      Durable(client.Contents(), checkpointer.done), report, queue0, resolver.queue.items,
                      log0, client.store.log)
    modifies client.store, resolver.queue, checkpointer
    ensures r.Ok? ==> Progress(client.AllowLists(), resolver.funnel, source, start, times, i + 1,
                               Durable(client.Contents(), checkpointer.done), r.value, queue0, resolver.queue.items,
                               log0, client.store.log)
    ensures r.Err? ==> Stopped(client.AllowLists(), source, start,
                               Durable(client.Contents(), checkpointer.done), i, times)
    ensures r.Err? ==> StoppedTrace(client.AllowLists(), resolver.funnel, source, start, i, times,
                                    queue0, resolver.queue.items, log0, client.store.log)
    ensures r.Err? ==> RejectedBy(client.AllowLists(), source.content(source.items[i]), r.error)
  {
    ghost var item, now := source.items[i], Durable(client.Contents(), checkpointer.done);
    if item.Key() in now.done || Admitted(client.AllowLists(), source.content(item)) {
      ProgressStep(client.AllowLists(), resolver.funnel, source, start, times, i, now, report,
                   queue0, resolver.queue.items, log0, client.store.log);
    } else {
      TraceStep(client.AllowLists(), resolver.funnel, source, start, times, i, now, report,
                queue0, resolver.queue.items, log0, client.store.log);
    }
    r := IngestItem(source, times, client, resolver, checkpointer, source.items[i], report);
  }

  /** Drives one source end to end. It completes exactly when no pending item holds a forbidden
      relation. */
  method RunIngest(source: Source, times: Times, client: GraphClient, resolver: Resolver,
                   checkpointer: InMemoryCheckpointer)
    returns (r: Result<IngestReport>)
    requires resolver.client.store == client.store
    modifies client.store, resolver.queue, checkpointer
    ensures var start := Durable(old(client.Contents()), old(checkpointer.done));
            var end := Durable(client.Contents(), checkpointer.done);
            && (r.Ok? <==> PendingAdmitted(client.AllowLists(), source, start.done, |source.items|))
            && match r
            case Ok(report) =>
              && end == IngestAll(client.AllowLists(), source, start, source.items, times)
              && Reports(report, resolver.funnel, source, start, |source.items|, times)
              && resolver.queue.items == old(resolver.queue.items) + EscalatedOf(report.resolutions)
              && client.store.log == old(client.store.log)
                   + IngestWrites(client.AllowLists(), source, start, source.items, times)
            case Err(error) =>
              exists n ::
                && 0 <= n < |source.items|
                && Stopped(client.AllowLists(), source, start, end, n, times)
                && StoppedTrace(client.AllowLists(), resolver.funnel, source, start, n, times,
                                old(resolver.queue.items), resolver.queue.items,
                                old(client.store.log), client.store.log)
                && RejectedBy(client.AllowLists(), source.content(source.items[n]), error)
  {
    var report := IngestReport(0, 0, [], []);
    ghost var start, allow := Durable(client.Contents(), checkpointer.done), client.AllowLists();
    ghost var f, queue0, log0 := resolver.funnel, resolver.queue.items, client.store.log;
    for i := 0 to |source.items|
      invariant Progress(allow, f, source, start, times, i, Durable(client.Contents(), checkpointer.done),
                         report, queue0, resolver.queue.items, log0, client.store.log)
    {
      var next := IngestNext(source, times, client, resolver, checkpointer, i, report, start, queue0, log0);
      if next.Err? {
        StoppedIsRejected(allow, source, start, Durable(client.Contents(), checkpointer.done), i, times);
        return Err(next.error);
      }
      report := next.value;
    }
    ProgressEnds(allow, f, source, start, times, Durable(client.Contents(), checkpointer.done), report, queue0,
                 resolver.queue.items, log0, client.store.log);
    r := Ok(report);
  }
}
