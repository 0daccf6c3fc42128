/** Crash and restart. The process may stop after any single upsert, or between the load and
    the ledger entry, and be started again any number of times; the graph and the ledger
    survive, the report and the position do not. */
module CrashSafety {
  import opened Graphs
  import opened GraphLaws
  import opened Client
  import opened Ir
  import opened Pipeline
  import opened LoadLaws
  import opened Checkpoints
  import opened Ingest

  datatype World = World(allow: Allow, source: Source)

  /** Not running; between items, before the item at `pos`; or loading that item, fetched at
      `time`, with `written` upserts made. */
  datatype Phase = Down | Between(pos: nat) | Loading(pos: nat, time: string, written: nat)

  /** `fetched` is history: the last fetch time of each item. */
  datatype State = State(graph: Graph, done: set<ItemKey>, fetched: Times, phase: Phase)

  datatype Step = Restart | Skip | Fetch(time: string) | WriteOne | MarkDone | Crash

  function Initial(d: Durable): State { State(d.graph, d.done, map[], Down) }

  /** The writes of the item, compiled against the graph as it is. */
  function WritesOf(w: World, g: Graph, item: WorkItem, time: string): seq<Write> {
    Compiler(w.allow)(Index(g), w.source.Parse(item, time))
  }

  /** What a bundle compiles to, as a function of the index it is read against. */
  function Compiler(allow: Allow): (map<string, string>, ParsedBundle) -> seq<Write> {
    (index: map<string, string>, b: ParsedBundle) => LoadWrites(allow, index, b)
  }

  predicate Enabled(w: World, s: State, step: Step) {
    var items := w.source.items;
    match step
    case Restart => s.phase.Down?
    case Skip => s.phase.Between? && s.phase.pos < |items| && items[s.phase.pos].Key() in s.done
    case Fetch(_) => s.phase.Between? && s.phase.pos < |items| && items[s.phase.pos].Key() !in s.done
    case WriteOne =>
      && s.phase.Loading? && s.phase.pos < |items|
      && s.phase.written < |WritesOf(w, s.graph, items[s.phase.pos], s.phase.time)|
    case MarkDone =>
      && s.phase.Loading? && s.phase.pos < |items|
      && s.phase.written == |WritesOf(w, s.graph, items[s.phase.pos], s.phase.time)|
      && Admitted(w.allow, w.source.content(items[s.phase.pos]))
    case Crash => !s.phase.Down?
  }

  function Next(w: World, s: State, step: Step): State
    requires Enabled(w, s, step)
  {
    var items := w.source.items;
    match step
    case Restart => s.(phase := Between(0))
    case Skip => s.(phase := Between(s.phase.pos + 1))
    case Fetch(time) => s.(fetched := s.fetched[items[s.phase.pos].Key() := time],
                           phase := Loading(s.phase.pos, time, 0))
    case WriteOne =>
      var ws := WritesOf(w, s.graph, items[s.phase.pos], s.phase.time);
      State(Apply(s.graph, ws[s.phase.written]), s.done, s.fetched,
            Loading(s.phase.pos, s.phase.time, s.phase.written + 1))
    case MarkDone => s.(done := s.done + {items[s.phase.pos].Key()}, phase := Between(s.phase.pos + 1))
    case Crash => s.(phase := Down)
  }

  function Front<T>(xs: seq<T>): seq<T>
    requires xs != []
  {
    xs[..|xs| - 1]
  }

  function Last<T>(xs: seq<T>): T
    requires xs != []
  {
    xs[|xs| - 1]
  }

  /** `s` is reached from `s0` by these steps. */
  ghost predicate Reaches(w: World, s0: State, steps: seq<Step>, s: State) {
    if steps == [] then s == s0 else
      exists mid :: Reaches(w, s0, Front(steps), mid) && Leads(w, mid, Last(steps), s)
  }

  ghost predicate Leads(w: World, s: State, step: Step, s': State) {
    Enabled(w, s, step) && s' == Next(w, s, step)
  }

  // ---- The invariant -----------------------------------------------------------------------

  /** How many leading items the ledger has. */
  function Frontier(items: seq<WorkItem>, done: set<ItemKey>): (n: nat)
    ensures n <= |items|
    ensures forall i :: 0 <= i < n ==> items[i].Key() in done
    ensures n < |items| ==> items[n].Key() !in done
  {
    if items == [] || items[0].Key() !in done then 0 else 1 + Frontier(items[1..], done)
  }

  /** What an uninterrupted run has made of the items the ledger has. */
  function BaseOf(w: World, d: Durable, done: set<ItemKey>, fetched: Times): Durable {
    IngestAll(w.allow, w.source, d, w.source.items[..Frontier(w.source.items, done)], fetched)
  }

  function Base(w: World, d: Durable, s: State): Durable { BaseOf(w, d, s.done, s.fetched) }

  /** Every node and edge of `g` is in `h`, with at least its labels and property names. */
  ghost predicate Grows(g: Graph, h: Graph) {
    forall r :: Present(g, r) ==> Present(h, r) && Covers(At(h, r), At(g, r))
  }

  /** `g` differs from `base` by nothing that a load of the next item would not overwrite. */
  ghost predicate Resumable(w: World, base: Graph, g: Graph, n: nat) {
    && Index(g) == Index(base)
    && Grows(base, g)
    && (n >= |w.source.items| ==> g == base)
    && (n < |w.source.items| ==>
          forall t: string :: Loaded(w.allow, g, w.source.Parse(w.source.items[n], t))
            == Loaded(w.allow, base, w.source.Parse(w.source.items[n], t)))
  }

  /** `g` is a resumable graph `g0` with the first `k` writes of the next item on top. */
  ghost predicate PartlyLoaded(w: World, base: Graph, g: Graph, n: nat, t: string, k: nat, g0: Graph)
    requires n < |w.source.items|
  {
    var ws := WritesOf(w, base, w.source.items[n], t);
    k <= |ws| && Resumable(w, base, g0, n) && g == ApplyAll(g0, ws[..k])
  }

  ghost predicate Inv(w: World, d: Durable, s: State) {
    var items, base := w.source.items, Base(w, d, s);
    var n := Frontier(items, s.done);
    && s.done == base.done
    && match s.phase
       case Down => Resumable(w, base.graph, s.graph, n)
       case Between(p) => p <= n && Resumable(w, base.graph, s.graph, n)
       case Loading(p, t, k) =>
         && p == n < |items| && items[n].Key() in s.fetched && s.fetched[items[n].Key()] == t
         && exists g0 :: PartlyLoaded(w, base.graph, s.graph, n, t, k, g0)
  }

  lemma GrowsByWriting(g: Graph, ws: seq<Write>)
    ensures Grows(g, ApplyAll(g, ws))
  {
    forall r | Present(g, r) ensures Present(ApplyAll(g, ws), r) && Covers(At(ApplyAll(g, ws), r), At(g, r)) {
      FindAfterAll(g, ws, r);
    }
  }

  lemma ResumableSelf(w: World, g: Graph, n: nat)
    ensures Resumable(w, g, g, n)
  {
  }

  /** Stopping after any number of the item's writes leaves a resumable graph. */
  lemma CrashResumable(w: World, base: Graph, g: Graph, n: nat, t: string, k: nat, g0: Graph)
    requires n < |w.source.items| && PartlyLoaded(w, base, g, n, t, k, g0)
    ensures Resumable(w, base, g, n)
  {
    var item := w.source.items[n];
    var ws := WritesOf(w, base, item, t);
    PartKeepsIndex(w, base, item, t, k, g0);
    GrowsByWriting(g0, ws[..k]);
    assert Grows(base, g) by {
      forall r | Present(base, r) ensures Present(g, r) && Covers(At(g, r), At(base, r)) {
        assert Present(g0, r) && Covers(At(g0, r), At(base, r));
      }
    }
    forall u: string
      ensures Loaded(w.allow, g, w.source.Parse(item, u)) == Loaded(w.allow, base, w.source.Parse(item, u))
    {
      InterruptedLoad(w.allow, g0, w.source.content(item), t, u, k);
    }
  }

  lemma PartKeepsIndex(w: World, base: Graph, item: WorkItem, t: string, k: nat, g0: Graph)
    requires k <= |WritesOf(w, base, item, t)|
    ensures Index(ApplyAll(g0, WritesOf(w, base, item, t)[..k])) == Index(g0)
  {
    LoadAvoidsMetrics(w.allow, Index(base), w.source.Parse(item, t));
    MetricsKept(g0, WritesOf(w, base, item, t)[..k]);
  }

  // ---- The ledger frontier ---------------------------------------------------------------

  lemma {:induction false} KeysOfPrefix(items: seq<WorkItem>, n: nat, i: nat)
    requires i < n <= |items|
    ensures items[i].Key() in Keys(items[..n])
    decreases n
  {
    assert items[..n][..n - 1] == items[..n - 1];
    if i < n - 1 { KeysOfPrefix(items, n - 1, i); }
  }

  lemma {:induction false} KeysWithin(items: seq<WorkItem>, done: set<ItemKey>)
    requires forall i :: 0 <= i < |items| ==> items[i].Key() in done
    ensures Keys(items) <= done
  {
    if items != [] { KeysWithin(items[..|items| - 1], done); }
  }

  /** Items whose keys the ledger already has change nothing. */
  lemma {:induction false} SkipDone(w: World, d: Durable, items: seq<WorkItem>, m: nat, times: Times)
    requires m <= |items|
    requires forall i :: m <= i < |items| ==> items[i].Key() in IngestAll(w.allow, w.source, d, items[..m], times).done
    ensures IngestAll(w.allow, w.source, d, items, times) == IngestAll(w.allow, w.source, d, items[..m], times)
    decreases |items| - m
  {
    if m == |items| {
      assert items[..m] == items;
    } else {
      var init := items[..|items| - 1];
      assert init[..m] == items[..m];
      SkipDone(w, d, init, m, times);
    }
  }

  /** Only the times of ingested items matter. */
  lemma {:induction false} OtherTimes(w: World, d: Durable, items: seq<WorkItem>, times: Times, key: ItemKey, t: string)
    requires key !in Keys(items)
    ensures IngestAll(w.allow, w.source, d, items, times[key := t]) == IngestAll(w.allow, w.source, d, items, times)
  {
    if items != [] { OtherTimes(w, d, items[..|items| - 1], times, key, t); }
  }

  lemma InitialInv(w: World, d: Durable)
    ensures Inv(w, d, Initial(d))
  {
    var items := w.source.items;
    var n := Frontier(items, d.done);
    assert items[..n][..0] == [];
    SkipDone(w, d, items[..n], 0, map[]);
    ResumableSelf(w, d.graph, n);
  }

  // ---- Each step keeps it ----------------------------------------------------------------

  lemma FetchInv(w: World, d: Durable, s: State, t: string)
    requires Inv(w, d, s) && Enabled(w, s, Fetch(t))
    ensures Inv(w, d, Next(w, s, Fetch(t)))
  {
    var items, s' := w.source.items, Next(w, s, Fetch(t));
    var n, key := Frontier(items, s.done), items[s.phase.pos].Key();
    assert s.phase.pos == n;
    assert key !in Keys(items[..n]) by { KeysWithin(items[..n], s.done); }
    OtherTimes(w, d, items[..n], s.fetched, key, t);
    assert Base(w, d, s') == Base(w, d, s);
    assert PartlyLoaded(w, Base(w, d, s').graph, s'.graph, n, t, 0, s.graph);
  }

  lemma NextOfPart(w: World, base: Graph, g: Graph, n: nat, t: string, k: nat, g0: Graph)
    requires n < |w.source.items| && PartlyLoaded(w, base, g, n, t, k, g0)
    requires k < |WritesOf(w, g, w.source.items[n], t)|
    ensures PartlyLoaded(w, base, Apply(g, WritesOf(w, g, w.source.items[n], t)[k]), n, t, k + 1, g0)
  {
    var item := w.source.items[n];
    PartKeepsIndex(w, base, item, t, k, g0);
    var ws := WritesOf(w, base, item, t);
    assert ws == WritesOf(w, g, item, t);
    assert ws[..k + 1][..k] == ws[..k];
    ApplyAllLast(g0, ws[..k + 1]);
  }

  lemma InvWhileLoading(w: World, d: Durable, s: State, g0: Graph)
    requires s.phase.Loading? && s.phase.pos == Frontier(w.source.items, s.done) < |w.source.items|
    requires var key := w.source.items[s.phase.pos].Key(); key in s.fetched && s.fetched[key] == s.phase.time
    requires s.done == Base(w, d, s).done
    requires PartlyLoaded(w, Base(w, d, s).graph, s.graph, s.phase.pos, s.phase.time, s.phase.written, g0)
    ensures Inv(w, d, s)
  {
  }

  lemma WriteInv(w: World, d: Durable, s: State)
    requires Inv(w, d, s) && Enabled(w, s, WriteOne)
    ensures Inv(w, d, Next(w, s, WriteOne))
  {
    var n, t, k, base := s.phase.pos, s.phase.time, s.phase.written, Base(w, d, s).graph;
    var g0 :| PartlyLoaded(w, base, s.graph, n, t, k, g0);
    NextOfPart(w, base, s.graph, n, t, k, g0);
    var next := State(Apply(s.graph, WritesOf(w, s.graph, w.source.items[n], t)[k]), s.done, s.fetched,
                      Loading(n, t, k + 1));
    InvWhileLoading(w, d, next, g0);
  }

  lemma CrashInv(w: World, d: Durable, s: State)
    requires Inv(w, d, s) && Enabled(w, s, Crash)
    ensures Inv(w, d, Next(w, s, Crash))
  {
    if s.phase.Loading? {
      var n, t, k, base := s.phase.pos, s.phase.time, s.phase.written, Base(w, d, s).graph;
      var g0 :| PartlyLoaded(w, base, s.graph, n, t, k, g0);
      CrashResumable(w, base, s.graph, n, t, k, g0);
    }
  }

  lemma MarkInv(w: World, d: Durable, s: State)
    requires Inv(w, d, s) && Enabled(w, s, MarkDone)
    ensures Inv(w, d, Next(w, s, MarkDone))
  {
    var s', n' := Next(w, s, MarkDone), Frontier(w.source.items, Next(w, s, MarkDone).done);
    MarkedBase(w, d, s);
    ResumableSelf(w, s.graph, n');
    FrontierMoves(w.source.items, s.done, s.phase.pos);
  }

  /** The base after marking is the graph and ledger as they are. */
  lemma MarkedBase(w: World, d: Durable, s: State)
    requires Inv(w, d, s) && Enabled(w, s, MarkDone)
    ensures Base(w, d, Next(w, s, MarkDone)) == Durable(s.graph, Next(w, s, MarkDone).done)
  {
    LoadedWhole(w, d, s);
    BaseAfterMark(w, d, s.done, s.fetched, s.phase.pos, s.graph);
  }

  lemma BaseAfterMark(w: World, d: Durable, done: set<ItemKey>, times: Times, n: nat, g: Graph)
    requires n == Frontier(w.source.items, done) < |w.source.items|
    requires var item := w.source.items[n];
             IngestOne(w.allow, w.source, IngestAll(w.allow, w.source, d, w.source.items[..n], times), item, times)
               == Durable(g, done + {item.Key()})
    ensures var done' := done + {w.source.items[n].Key()};
            IngestAll(w.allow, w.source, d, w.source.items[..Frontier(w.source.items, done')], times)
              == Durable(g, done')
  {
    var items, done' := w.source.items, done + {w.source.items[n].Key()};
    var n' := Frontier(items, done');
    FrontierMoves(items, done, n);
    assert items[..n'][..n + 1] == items[..n + 1];
    assert IngestAll(w.allow, w.source, d, items[..n + 1], times) == Durable(g, done') by {
      IngestStep(w.allow, w.source, d, times, n);
    }
    SkipDone(w, d, items[..n'], n + 1, times);
  }

  lemma {:induction false} FrontierMoves(items: seq<WorkItem>, done: set<ItemKey>, n: nat)
    requires n == Frontier(items, done) < |items|
    ensures n + 1 <= Frontier(items, done + {items[n].Key()})
  {
    if n > 0 {
      assert items[0].Key() in done;
      FrontierMoves(items[1..], done, n - 1);
    }
  }

  /** When all writes are made, the graph is that of a whole load from the base. */
  lemma LoadedWhole(w: World, d: Durable, s: State)
    requires Inv(w, d, s) && Enabled(w, s, MarkDone)
    ensures var base := Base(w, d, s);
            && IngestOne(w.allow, w.source, base, w.source.items[s.phase.pos], s.fetched)
                 == Durable(s.graph, s.done + {w.source.items[s.phase.pos].Key()})
  {
    var n, t, k, base := s.phase.pos, s.phase.time, s.phase.written, Base(w, d, s).graph;
    var g0 :| PartlyLoaded(w, base, s.graph, n, t, k, g0);
    var item := w.source.items[n];
    PartKeepsIndex(w, base, item, t, k, g0);
    var ws := WritesOf(w, base, item, t);
    assert k == |ws| && ws[..k] == ws;
    assert s.graph == Loaded(w.allow, g0, w.source.Parse(item, t));
    assert s.graph == Loaded(w.allow, base, w.source.Parse(item, t));
  }

  lemma StepInv(w: World, d: Durable, s: State, step: Step)
    requires Inv(w, d, s) && Enabled(w, s, step)
    ensures Inv(w, d, Next(w, s, step))
  {
    match step
    case Restart =>
    case Skip =>
    case Fetch(t) => FetchInv(w, d, s, t);
    case WriteOne => WriteInv(w, d, s);
    case MarkDone => MarkInv(w, d, s);
    case Crash => CrashInv(w, d, s);
  }

  lemma {:induction false} ReachableInv(w: World, d: Durable, steps: seq<Step>, s: State)
    requires Reaches(w, Initial(d), steps, s)
    ensures Inv(w, d, s)
  {
    if steps == [] {
      InitialInv(w, d);
    } else {
      var mid :| Reaches(w, Initial(d), Front(steps), mid) && Leads(w, mid, Last(steps), s);
      ReachableInv(w, d, Front(steps), mid);
      StepInv(w, d, mid, Last(steps));
    }
  }

  // ---- What it means -------------------------------------------------------------------------

  /** Crash refinement. However often the process crashed and was restarted, and wherever, a
      run that completes leaves exactly the graph, insertion orders included, and the ledger
      of one uninterrupted run in which every item carries its last fetch time. */
  lemma CrashRefinement(w: World, d: Durable, steps: seq<Step>, s: State)
    requires Reaches(w, Initial(d), steps, s) && s.phase == Between(|w.source.items|)
    ensures Durable(s.graph, s.done) == IngestAll(w.allow, w.source, d, w.source.items, s.fetched)
  {
    ReachableInv(w, d, steps, s);
    assert w.source.items[..|w.source.items|] == w.source.items;
  }

  /** A write has landed when its target is stored with at least what the write sets. */
  ghost predicate Landed(g: Graph, x: Write) { Present(g, x.ref) && Covers(At(g, x.ref), x.delta) }

  lemma WritesLand(g: Graph, ws: seq<Write>, x: Write)
    requires x in ws
    ensures Landed(ApplyAll(g, ws), x)
  {
    TargetsMember(ws, x);
    FindAfterAll(g, ws, x.ref);
    NetCoversElement(ws, x);
  }

  lemma StaysLanded(g: Graph, h: Graph, x: Write)
    requires Landed(g, x) && Grows(g, h)
    ensures Landed(h, x)
  {
    assert Present(h, x.ref) && Covers(At(h, x.ref), At(g, x.ref));
  }

  lemma {:induction false} IngestedLands(w: World, d: Durable, items: seq<WorkItem>, times: Times, item: WorkItem,
                                         x: Write)
    requires item in Pending(d.done, items) && x in WritesOf(w, d.graph, item, TimeOf(times, item))
    ensures Landed(IngestAll(w.allow, w.source, d, items, times).graph, x)
  {
    var init, last := items[..|items| - 1], items[|items| - 1];
    var before := IngestAll(w.allow, w.source, d, init, times);
    var ws := WritesOf(w, before.graph, last, TimeOf(times, last));
    if item in Pending(d.done, init) {
      IngestedLands(w, d, init, times, item, x);
      GrowsByWriting(before.graph, ws);
      if last.Key() !in before.done { StaysLanded(before.graph, ApplyAll(before.graph, ws), x); }
    } else {
      IngestedKeys(w.allow, w.source, d, init, times);
      MetricsUntouched(w.allow, w.source, d, init, times);
      WritesLand(before.graph, ws, x);
    }
  }

  lemma {:induction false} KeysGrow(items: seq<WorkItem>, n: nat)
    requires n <= |items|
    ensures Keys(items[..n]) <= Keys(items)
  {
    if n < |items| {
      var init := items[..|items| - 1];
      assert init[..n] == items[..n];
      KeysGrow(init, n);
    } else {
      assert items[..n] == items;
    }
  }

  /** A pending item whose key is among the first `n` is pending among them. */
  lemma {:induction false} PendingWithin(done: set<ItemKey>, items: seq<WorkItem>, n: nat, item: WorkItem)
    requires n <= |items| && item in Pending(done, items) && item.Key() in done + Keys(items[..n])
    ensures item in Pending(done, items[..n])
  {
    if n == |items| {
      assert items[..n] == items;
    } else {
      var init := items[..|items| - 1];
      assert init[..n] == items[..n];
      KeysGrow(init, n);
      PendingWithin(done, init, n, item);
    }
  }

  lemma InvGrows(w: World, d: Durable, s: State)
    requires Inv(w, d, s)
    ensures Grows(Base(w, d, s).graph, s.graph)
  {
    if s.phase.Loading? {
      var base := Base(w, d, s).graph;
      var g0 :| PartlyLoaded(w, base, s.graph, s.phase.pos, s.phase.time, s.phase.written, g0);
      CrashResumable(w, base, s.graph, s.phase.pos, s.phase.time, s.phase.written, g0);
    }
  }

  /** In every reachable state, an item this ledger has come to list has all its writes in the
      graph: everything it names is stored, with at least its labels and property names. */
  lemma DoneMeansWritten(w: World, d: Durable, steps: seq<Step>, s: State, item: WorkItem, x: Write)
    requires Reaches(w, Initial(d), steps, s)
    requires item in Pending(d.done, w.source.items) && item.Key() in s.done
    requires x in WritesOf(w, d.graph, item, TimeOf(s.fetched, item))
    ensures Landed(s.graph, x)
  {
    var n := Frontier(w.source.items, s.done);
    ReachableInv(w, d, steps, s);
    IngestedKeys(w.allow, w.source, d, w.source.items[..n], s.fetched);
    PendingWithin(d.done, w.source.items, n, item);
    IngestedLands(w, d, w.source.items[..n], s.fetched, item, x);
    InvGrows(w, d, s);
    StaysLanded(Base(w, d, s).graph, s.graph, x);
  }

  /** What a resumable graph shares with its base: everything a load of the next item would not
      write. */
  lemma ResumableElsewhere(w: World, base: Graph, g: Graph, n: nat, t: string, r: Ref)
    requires Resumable(w, base, g, n)
    requires n < |w.source.items| ==> !Targets(WritesOf(w, base, w.source.items[n], t), r)
    ensures Find(g, r) == Find(base, r)
  {
    if n < |w.source.items| {
      var ws := WritesOf(w, base, w.source.items[n], t);
      assert Loaded(w.allow, g, w.source.Parse(w.source.items[n], t)) == ApplyAll(g, ws);
      assert Loaded(w.allow, base, w.source.Parse(w.source.items[n], t)) == ApplyAll(base, ws);
      FindAfterAll(g, ws, r);
      FindAfterAll(base, ws, r);
    }
  }

  lemma InvElsewhere(w: World, d: Durable, s: State, t: string, r: Ref)
    requires Inv(w, d, s)
    requires var n := Frontier(w.source.items, s.done);
             n < |w.source.items| ==> !Targets(WritesOf(w, Base(w, d, s).graph, w.source.items[n], t), r)
    ensures Find(s.graph, r) == Find(Base(w, d, s).graph, r)
  {
    var n, base := Frontier(w.source.items, s.done), Base(w, d, s).graph;
    if s.phase.Loading? {
      var g0 :| PartlyLoaded(w, base, s.graph, s.phase.pos, s.phase.time, s.phase.written, g0);
      CrashResumable(w, base, s.graph, n, s.phase.time, s.phase.written, g0);
    }
    ResumableElsewhere(w, base, s.graph, n, t, r);
  }

  /** Values, too: in every reachable state, every node and edge that the one interrupted item
      does not write is exactly what an uninterrupted run over the items the ledger has come to
      list, with their last fetch times, makes of it; and what that item does write keeps at
      least its labels and property names. */
  lemma DoneMeansIngested(w: World, d: Durable, steps: seq<Step>, s: State, t: string, r: Ref)
    requires Reaches(w, Initial(d), steps, s)
    ensures var items, n := w.source.items, Frontier(w.source.items, s.done);
            var ingested := IngestAll(w.allow, w.source, d, items[..n], s.fetched);
            && ingested.done == s.done
            && (n == |items| || !Targets(WritesOf(w, d.graph, items[n], t), r) ==>
                  Find(s.graph, r) == Find(ingested.graph, r))
            && (Present(ingested.graph, r) ==> Present(s.graph, r) && Covers(At(s.graph, r), At(ingested.graph, r)))
  {
    var items, n := w.source.items, Frontier(w.source.items, s.done);
    ReachableInv(w, d, steps, s);
    if n < |items| { SamePlan(w, d, items[..n], s.fetched, items[n], t); }
    if n == |items| || !Targets(WritesOf(w, d.graph, items[n], t), r) { InvElsewhere(w, d, s, t, r); }
    InvGrows(w, d, s);
    assert Grows(Base(w, d, s).graph, s.graph);
  }

  /** An item compiles the same against every graph of a run. */
  lemma SamePlan(w: World, d: Durable, items: seq<WorkItem>, times: Times, item: WorkItem, t: string)
    ensures WritesOf(w, IngestAll(w.allow, w.source, d, items, times).graph, item, t) == WritesOf(w, d.graph, item, t)
  {
    MetricsUntouched(w.allow, w.source, d, items, times);
  }

  // ---- Recovery ------------------------------------------------------------------------------

  lemma {:induction false} StepFirst(w: World, a: State, step: Step, b: State, steps: seq<Step>, c: State)
    requires Leads(w, a, step, b) && Reaches(w, b, steps, c)
    ensures Reaches(w, a, [step] + steps, c)
  {
    var all := [step] + steps;
    if steps == [] {
      assert Front(all) == [] && Last(all) == step;
      assert Reaches(w, a, Front(all), a) && Leads(w, a, Last(all), c);
    } else {
      var mid :| Reaches(w, b, Front(steps), mid) && Leads(w, mid, Last(steps), c);
      StepFirst(w, a, step, b, Front(steps), mid);
      assert Front(all) == [step] + Front(steps) && Last(all) == Last(steps);
    }
  }

  lemma {:induction false} StepsThen(w: World, a: State, xs: seq<Step>, b: State, ys: seq<Step>, c: State)
    requires Reaches(w, a, xs, b) && Reaches(w, b, ys, c)
    ensures Reaches(w, a, xs + ys, c)
  {
    if xs == [] {
      assert xs + ys == ys;
    } else {
      assert xs + ys == Front(xs) + ([Last(xs)] + ys);
      var mid :| Reaches(w, a, Front(xs), mid) && Leads(w, mid, Last(xs), b);
      assert Reaches(w, mid, [Last(xs)] + ys, c) by { StepFirst(w, mid, Last(xs), b, ys, c); }
      StepsThen(w, a, Front(xs), mid, [Last(xs)] + ys, c);
    }
  }

  lemma WriteKeepsPlan(w: World, s: State)
    requires Enabled(w, s, WriteOne)
    ensures var item := w.source.items[s.phase.pos];
            WritesOf(w, Next(w, s, WriteOne).graph, item, s.phase.time) == WritesOf(w, s.graph, item, s.phase.time)
  {
    var item := w.source.items[s.phase.pos];
    var ws := WritesOf(w, s.graph, item, s.phase.time);
    var x := ws[s.phase.written];
    LoadAvoidsMetrics(w.allow, Index(s.graph), w.source.Parse(item, s.phase.time));
    assert x in ws;
    MetricsKept(s.graph, [x]);
    ApplyOne(s.graph, x);
  }

  lemma Snoc(w: World, a: State, steps: seq<Step>, b: State, step: Step, c: State)
    requires Reaches(w, a, steps, b) && Leads(w, b, step, c)
    ensures Reaches(w, a, steps + [step], c)
  {
    var all := steps + [step];
    assert Front(all) == steps && Last(all) == step;
  }

  /** The load of the item at `pos`, fetched at `time`, with its first `k` upserts made. */
  function Halfway(w: World, s: State, pos: nat, time: string, k: nat): State
    requires pos < |w.source.items| && k <= |WritesOf(w, s.graph, w.source.items[pos], time)|
  {
    State(ApplyAll(s.graph, WritesOf(w, s.graph, w.source.items[pos], time)[..k]), s.done,
          s.fetched[w.source.items[pos].Key() := time], Loading(pos, time, k))
  }

  lemma NextUpsert(g: Graph, ws: seq<Write>, k: nat)
    requires k < |ws|
    ensures ApplyAll(g, ws[..k + 1]) == Apply(ApplyAll(g, ws[..k]), ws[k])
  {
    assert ws[..k + 1][..k] == ws[..k];
    ApplyAllLast(g, ws[..k + 1]);
  }

  lemma HalfwayStep(w: World, s: State, pos: nat, time: string, k: nat)
    requires pos < |w.source.items| && k < |WritesOf(w, s.graph, w.source.items[pos], time)|
    requires WritesOf(w, Halfway(w, s, pos, time, k).graph, w.source.items[pos], time)
          == WritesOf(w, s.graph, w.source.items[pos], time)
    ensures Leads(w, Halfway(w, s, pos, time, k), WriteOne, Halfway(w, s, pos, time, k + 1))
    ensures WritesOf(w, Halfway(w, s, pos, time, k + 1).graph, w.source.items[pos], time)
         == WritesOf(w, s.graph, w.source.items[pos], time)
  {
    var ws, before := WritesOf(w, s.graph, w.source.items[pos], time), Halfway(w, s, pos, time, k);
    assert Next(w, before, WriteOne) == Halfway(w, s, pos, time, k + 1) by { NextUpsert(s.graph, ws, k); }
    WriteKeepsPlan(w, before);
  }

  lemma {:induction false} ReachHalfway(w: World, s: State, time: string, k: nat) returns (steps: seq<Step>)
    requires Enabled(w, s, Fetch(time)) && k <= |WritesOf(w, s.graph, w.source.items[s.phase.pos], time)|
    ensures Reaches(w, s, steps, Halfway(w, s, s.phase.pos, time, k))
    ensures WritesOf(w, Halfway(w, s, s.phase.pos, time, k).graph, w.source.items[s.phase.pos], time)
         == WritesOf(w, s.graph, w.source.items[s.phase.pos], time)
  {
    if k == 0 {
      assert Halfway(w, s, s.phase.pos, time, 0) == Next(w, s, Fetch(time));
      assert Reaches(w, s, [], s);
      Snoc(w, s, [], s, Fetch(time), Halfway(w, s, s.phase.pos, time, 0));
      steps := [] + [Fetch(time)];
    } else {
      var before := ReachHalfway(w, s, time, k - 1);
      HalfwayStep(w, s, s.phase.pos, time, k - 1);
      Snoc(w, s, before, Halfway(w, s, s.phase.pos, time, k - 1), WriteOne, Halfway(w, s, s.phase.pos, time, k));
      steps := before + [WriteOne];
    }
  }

  /** The process may stop anywhere: whatever time an item is fetched at, after any number of its
      upserts, the first ones in order, and with the item not marked. */
  lemma CrashAnywhere(w: World, s: State, time: string, k: nat) returns (steps: seq<Step>, end: State)
    requires s.phase.Between? && s.phase.pos < |w.source.items| && w.source.items[s.phase.pos].Key() !in s.done
    requires k <= |LoadWrites(w.allow, Index(s.graph), w.source.Parse(w.source.items[s.phase.pos], time))|
    ensures var item := w.source.items[s.phase.pos];
            var ws := LoadWrites(w.allow, Index(s.graph), w.source.Parse(item, time));
            && Reaches(w, s, steps, end) && end.phase == Down && end.done == s.done
            && end.graph == ApplyAll(s.graph, ws[..k])
            && end.fetched == s.fetched[item.Key() := time]
  {
    var before := ReachHalfway(w, s, time, k);
    var mid := Halfway(w, s, s.phase.pos, time, k);
    end := mid.(phase := Down);
    Snoc(w, s, before, mid, Crash, end);
    steps := before + [Crash];
  }

  /** How many upserts of the item being loaded are still to be made. */
  function Left(w: World, s: State): int {
    if s.phase.Loading? && s.phase.pos < |w.source.items|
    then |WritesOf(w, s.graph, w.source.items[s.phase.pos], s.phase.time)| - s.phase.written else 0
  }

  /** The item at `pos` is being loaded, may be loaded in full, and lacks `left` upserts. */
  ghost predicate Finishing(w: World, s: State, pos: nat, left: nat) {
    && s.phase.Loading? && s.phase.pos == pos < |w.source.items| && left == Left(w, s)
    && Admitted(w.allow, w.source.content(w.source.items[pos]))
  }

  /** `end` is after the item at `pos`, with that item marked since `s`. */
  ghost predicate Marked(w: World, s: State, pos: nat, end: State)
    requires pos < |w.source.items|
  {
    end.phase == Between(pos + 1) && end.done == s.done + {w.source.items[pos].Key()}
  }

  lemma WriteAhead(w: World, s: State, pos: nat, left: nat) returns (mid: State)
    requires Finishing(w, s, pos, left) && left > 0
    ensures Leads(w, s, WriteOne, mid) && Finishing(w, mid, pos, left - 1) && mid.done == s.done
  {
    WriteKeepsPlan(w, s);
    mid := Next(w, s, WriteOne);
  }

  lemma MarkAhead(w: World, s: State, pos: nat) returns (end: State)
    requires Finishing(w, s, pos, 0)
    ensures Leads(w, s, MarkDone, end) && Marked(w, s, pos, end)
  {
    end := Next(w, s, MarkDone);
  }

  lemma Prepend(w: World, a: State, step: Step, b: State, steps: seq<Step>, c: State) returns (all: seq<Step>)
    requires Leads(w, a, step, b) && Reaches(w, b, steps, c)
    ensures Reaches(w, a, all, c)
  {
    StepFirst(w, a, step, b, steps, c);
    all := [step] + steps;
  }

  /** The rest of an item's load can be carried out, and the item marked. */
  lemma {:induction false} FinishItem(w: World, s: State, pos: nat, left: nat) returns (steps: seq<Step>, end: State)
    requires Finishing(w, s, pos, left)
    ensures Reaches(w, s, steps, end) && Marked(w, s, pos, end)
    decreases left
  {
    if left == 0 {
      end := MarkAhead(w, s, pos);
      steps := Prepend(w, s, MarkDone, end, [], end);
    } else {
      var mid := WriteAhead(w, s, pos, left);
      var rest;
      rest, end := FinishItem(w, mid, pos, left - 1);
      steps := Prepend(w, s, WriteOne, mid, rest, end);
    }
  }

  /** The item at `i` is the first from `pos` on with a key the ledger lacks. */
  predicate FirstFrom(items: seq<WorkItem>, done: set<ItemKey>, pos: nat, i: nat)
    requires i < |items|
  {
    items[i].Key() !in done && forall j :: pos <= j < i ==> items[j].Key() != items[i].Key()
  }

  /** The items still to be loaded from `pos` on hold no forbidden relation. */
  ghost predicate FirstsAdmitted(w: World, done: set<ItemKey>, pos: nat) {
    forall i :: pos <= i < |w.source.items| && FirstFrom(w.source.items, done, pos, i) ==>
      Admitted(w.allow, w.source.content(w.source.items[i]))
  }

  lemma FirstsAfter(w: World, done: set<ItemKey>, pos: nat)
    requires pos < |w.source.items| && FirstsAdmitted(w, done, pos)
    ensures FirstsAdmitted(w, done + {w.source.items[pos].Key()}, pos + 1)
    ensures w.source.items[pos].Key() !in done ==> Admitted(w.allow, w.source.content(w.source.items[pos]))
  {
    var items := w.source.items;
    forall i | pos + 1 <= i < |items| && FirstFrom(items, done + {items[pos].Key()}, pos + 1, i)
      ensures Admitted(w.allow, w.source.content(items[i]))
    {
      assert FirstFrom(items, done, pos, i);
    }
    if items[pos].Key() !in done { assert FirstFrom(items, done, pos, pos); }
  }

  lemma {:induction false} FinishRun(w: World, s: State) returns (steps: seq<Step>, s': State)
    requires s.phase.Between? && s.phase.pos <= |w.source.items|
    requires FirstsAdmitted(w, s.done, s.phase.pos)
    ensures Reaches(w, s, steps, s') && s'.phase == Between(|w.source.items|)
    decreases |w.source.items| - s.phase.pos
  {
    if s.phase.pos == |w.source.items| {
      steps, s' := [], s;
    } else {
      var key := w.source.items[s.phase.pos].Key();
      FirstsAfter(w, s.done, s.phase.pos);
      if key in s.done {
        var mid := Next(w, s, Skip);
        assert s.done + {key} == s.done;
        var rest;
        rest, s' := FinishRun(w, mid);
        steps := Prepend(w, s, Skip, mid, rest, s');
      } else {
        var fetched, load, loaded := FetchAndFinish(w, s);
        var rest, end := FinishRun(w, loaded);
        StepsThen(w, fetched, load, loaded, rest, end);
        steps := Prepend(w, s, Fetch(""), fetched, load + rest, end);
        s' := end;
      }
    }
  }

  lemma FetchAndFinish(w: World, s: State) returns (fetched: State, load: seq<Step>, loaded: State)
    requires s.phase.Between? && s.phase.pos < |w.source.items| && w.source.items[s.phase.pos].Key() !in s.done
    requires Admitted(w.allow, w.source.content(w.source.items[s.phase.pos]))
    ensures Leads(w, s, Fetch(""), fetched) && Reaches(w, fetched, load, loaded) && Marked(w, s, s.phase.pos, loaded)
  {
    fetched := Next(w, s, Fetch(""));
    load, loaded := FinishItem(w, fetched, s.phase.pos, Left(w, fetched));
  }

  /** From every state, wherever the process stopped, a restart can complete if no item still to
      be loaded holds a relation the packs do not allow. */
  lemma Recovery(w: World, s: State) returns (steps: seq<Step>, s': State)
    requires FirstsAdmitted(w, s.done, 0)
    ensures Reaches(w, s, steps, s') && s'.phase == Between(|w.source.items|)
  {
    var down := s.(phase := Down);
    var up := Next(w, down, Restart);
    var rest, end := FinishRun(w, up);
    steps := Prepend(w, down, Restart, up, rest, end);
    s' := end;
    if !s.phase.Down? { steps := Prepend(w, s, Crash, down, steps, end); }
  }

  /** Every first item that was marked since `before` holds no forbidden relation. */
  ghost predicate AddedAdmitted(w: World, before: set<ItemKey>, done: set<ItemKey>) {
    var items := w.source.items;
    forall i :: 0 <= i < |items| && FirstFrom(items, before, 0, i) && items[i].Key() in done ==>
      Admitted(w.allow, w.source.content(items[i]))
  }

  lemma MarkAdded(w: World, d: Durable, before: set<ItemKey>, s: State)
    requires Inv(w, d, s) && Enabled(w, s, MarkDone) && AddedAdmitted(w, before, s.done)
    ensures AddedAdmitted(w, before, Next(w, s, MarkDone).done)
  {
    var items, p := w.source.items, s.phase.pos;
    forall i | 0 <= i < |items| && FirstFrom(items, before, 0, i) && items[i].Key() in s.done + {items[p].Key()}
      ensures Admitted(w.allow, w.source.content(items[i]))
    {
      if items[i].Key() !in s.done { SamePlace(items, before, s.done, p, i); }
    }
  }

  /** The first item with the key at the frontier is the one at the frontier. */
  lemma SamePlace(items: seq<WorkItem>, before: set<ItemKey>, done: set<ItemKey>, p: nat, i: nat)
    requires p == Frontier(items, done) < |items| && i < |items|
    requires FirstFrom(items, before, 0, i) && items[i].Key() == items[p].Key()
    ensures i == p
  {
    assert items[p].Key() !in done && forall j :: 0 <= j < p ==> items[j].Key() in done;
  }

  lemma {:induction false} AddedOverSteps(w: World, d: Durable, start: seq<Step>, s: State, steps: seq<Step>, t: State)
    requires Reaches(w, Initial(d), start, s) && Reaches(w, s, steps, t)
    ensures AddedAdmitted(w, s.done, t.done)
  {
    if steps != [] {
      var mid :| Reaches(w, s, Front(steps), mid) && Leads(w, mid, Last(steps), t);
      AddedOverSteps(w, d, start, s, Front(steps), mid);
      if Last(steps).MarkDone? {
        StepsThen(w, Initial(d), start, s, Front(steps), mid);
        ReachableInv(w, d, start + Front(steps), mid);
        MarkAdded(w, d, s.done, mid);
      } else {
        KeepsDone(w, mid, Last(steps));
      }
    }
  }

  lemma KeepsDone(w: World, s: State, step: Step)
    requires Enabled(w, s, step) && !step.MarkDone?
    ensures Next(w, s, step).done == s.done
  {
  }

  /** Some continuation completes the run. */
  ghost predicate CanComplete(w: World, s: State) {
    exists steps, end :: Reaches(w, s, steps, end) && end.phase == Between(|w.source.items|)
  }

  /** Recovery, exactly: from a reachable state the run can be completed if and only if no item
      still to be loaded, that is no first item with a key the ledger lacks, holds a relation the
      packs do not allow. */
  lemma RecoveryIsExact(w: World, d: Durable, start: seq<Step>, s: State)
    requires Reaches(w, Initial(d), start, s)
    ensures CanComplete(w, s) <==> FirstsAdmitted(w, s.done, 0)
  {
    if FirstsAdmitted(w, s.done, 0) {
      var steps, end := Recovery(w, s);
    }
    if steps, end :| Reaches(w, s, steps, end) && end.phase == Between(|w.source.items|) {
      AddedOverSteps(w, d, start, s, steps, end);
      StepsThen(w, Initial(d), start, s, steps, end);
      AllDoneAtEnd(w, d, start + steps, end);
    }
  }

  lemma AllDoneAtEnd(w: World, d: Durable, steps: seq<Step>, end: State)
    requires Reaches(w, Initial(d), steps, end) && end.phase == Between(|w.source.items|)
    ensures forall i :: 0 <= i < |w.source.items| ==> w.source.items[i].Key() in end.done
  {
    ReachableInv(w, d, steps, end);
  }

  /** The items still to be loaded are the pending ones, so this is the condition under which the
      driver completes. */
  lemma {:induction false} FirstsArePending(items: seq<WorkItem>, done: set<ItemKey>, item: WorkItem)
    ensures item in Pending(done, items) <==> SomeFirst(items, done, item)
  {
    if items != [] {
      var n := |items| - 1;
      var init := items[..n];
      FirstsArePending(init, done, item);
      SomeFirstSnoc(init, items[n], done, item);
      LastIsFirst(items, done);
      assert init + [items[n]] == items;
      assert item in Pending(done, items)
        <==> item in Pending(done, init) || (item == items[n] && items[n].Key() !in done + Keys(init));
    }
  }

  /** The item is the first with its key at some position. */
  predicate SomeFirst(items: seq<WorkItem>, done: set<ItemKey>, item: WorkItem) {
    exists i :: 0 <= i < |items| && items[i] == item && FirstFrom(items, done, 0, i)
  }

  lemma SomeFirstSnoc(init: seq<WorkItem>, last: WorkItem, done: set<ItemKey>, item: WorkItem)
    ensures var items := init + [last];
            SomeFirst(items, done, item)
            <==> SomeFirst(init, done, item) || (item == last && FirstFrom(items, done, 0, |init|))
  {
    var items := init + [last];
    forall i | 0 <= i < |init|
      ensures items[i] == init[i] && (FirstFrom(init, done, 0, i) <==> FirstFrom(items, done, 0, i))
    {
      assert forall j :: 0 <= j <= i ==> init[j] == items[j];
    }
  }

  lemma LastIsFirst(items: seq<WorkItem>, done: set<ItemKey>)
    requires items != []
    ensures FirstFrom(items, done, 0, |items| - 1) <==> items[|items| - 1].Key() !in done + Keys(items[..|items| - 1])
  {
    var n := |items| - 1;
    if FirstFrom(items, done, 0, n) {
      KeysOnly(items[..n], items[n].Key());
    } else if items[n].Key() !in done {
      var j :| 0 <= j < n && items[j].Key() == items[n].Key();
      KeysOfPrefix(items, n, j);
    }
  }

  lemma {:induction false} KeysOnly(items: seq<WorkItem>, key: ItemKey)
    requires forall j :: 0 <= j < |items| ==> items[j].Key() != key
    ensures key !in Keys(items)
  {
    if items != [] { KeysOnly(items[..|items| - 1], key); }
  }

  lemma RecoveryMeetsDriver(w: World, done: set<ItemKey>)
    ensures FirstsAdmitted(w, done, 0) <==> PendingAdmitted(w.allow, w.source, done, |w.source.items|)
  {
    var items := w.source.items;
    assert items[..|items|] == items;
    forall item { FirstsArePending(items, done, item); }
    if PendingAdmitted(w.allow, w.source, done, |items|) {
      forall i | 0 <= i < |items| && FirstFrom(items, done, 0, i)
        ensures Admitted(w.allow, w.source.content(items[i])) {
        assert SomeFirst(items, done, items[i]);
        assert items[i] in Pending(done, items);
      }
    }
  }
}
