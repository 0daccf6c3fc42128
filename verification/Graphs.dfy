/** The graph as a value: six node identities, typed edges, and insertion-ordered tables
    written by upserts. */
module Graphs {
  import opened Wrappers

  datatype Value =
    | Null
    | Text(text: string)
    | Flag(flag: bool)
    | Number(number: real)
    | Texts(items: seq<string>)

  /** Property dictionaries. The label set is kept beside them, so the name under which the
      store files it is never a property. */
  type Props = p: map<string, Value> | "_labels" !in p

  /** `_clean`: absent values are not written. */
  function Clean(props: Props): Props {
    map k | k in props && props[k] != Null :: props[k]
  }

  /** A base label with its constrained key properties. */
  datatype NodeId =
    | Entity(uid: string)
    | Metric(metricKey: string)
    | Column(system: string, table: string, name: string)
    | Document(uri: string)
    | Benchmark(benchmarkKey: string)
    | Party(partyUid: string)
  {
    function Label(): string {
      match this
      case Entity(_) => "Entity"
      case Metric(_) => "Metric"
      case Column(_, _, _) => "Column"
      case Document(_) => "Document"
      case Benchmark(_) => "Benchmark"
      case Party(_) => "Party"
    }

    function KeyProps(): Props {
      match this
      case Entity(u) => map["uid" := Text(u)]
      case Metric(k) => map["metric_key" := Text(k)]
      case Column(s, t, n) => map["system" := Text(s), "table" := Text(t), "name" := Text(n)]
      case Document(u) => map["uri" := Text(u)]
      case Benchmark(k) => map["benchmark_key" := Text(k)]
      case Party(u) => map["uid" := Text(u)]
    }
  }

  /** The role, when there is one, is part of the identity. */
  datatype EdgeId = EdgeId(rel: string, src: NodeId, dst: NodeId, role: Option<string>)

  datatype Ref = NodeRef(node: NodeId) | EdgeRef(edge: EdgeId)

  /** What a node or edge stores, and also what one upsert adds to it. */
  datatype Cell = Cell(labels: set<string>, props: Props)

  const Zero := Cell({}, map[])

  /** Labels are unioned; a later property value wins. */
  function Merge(base: Cell, delta: Cell): Cell {
    Cell(base.labels + delta.labels, base.props + delta.props)
  }

  /** What the store files for a node or edge it has not seen before. */
  function Fresh(r: Ref): Cell {
    match r
    case NodeRef(n) => Cell({n.Label()}, n.KeyProps())
    case EdgeRef(e) => Cell({}, if e.role.Some? then map["role" := Text(e.role.value)] else map[])
  }

  /** A dictionary with its insertion order. */
  datatype RawTable<K> = Table(order: seq<K>, cells: map<K, Cell>)

  /** The order lists every key, and lists it once. */
  ghost predicate Ordered<K(!new)>(t: RawTable<K>) {
    && |t.order| == |t.cells|
    && forall k :: k in t.order <==> k in t.cells
  }

  type Table<K(!new)> = t: RawTable<K> | Ordered(t) witness Table([], map[])

  function Put<K(==,!new)>(t: Table<K>, k: K, cell: Cell): Table<K> {
    Table(if k in t.cells then t.order else t.order + [k], t.cells[k := cell])
  }

  datatype Graph = Graph(nodes: Table<NodeId>, edges: Table<EdgeId>)

  const Empty := Graph(Table([], map[]), Table([], map[]))

  function Find(g: Graph, r: Ref): Option<Cell> {
    match r
    case NodeRef(n) => if n in g.nodes.cells then Some(g.nodes.cells[n]) else None
    case EdgeRef(e) => if e in g.edges.cells then Some(g.edges.cells[e]) else None
  }

  predicate Present(g: Graph, r: Ref) { Find(g, r).Some? }

  /** The stored cell, or the one a first upsert would start from. */
  function At(g: Graph, r: Ref): Cell {
    match Find(g, r)
    case Some(cell) => cell
    case None => Fresh(r)
  }

  /** One atomic upsert. */
  datatype Write = Write(ref: Ref, delta: Cell)

  /** Set-or-update of one table entry, starting from `first` when the key is new. */
  function Upsert<K(==,!new)>(t: Table<K>, k: K, first: Cell, delta: Cell): Table<K> {
    Put(t, k, Merge(if k in t.cells then t.cells[k] else first, delta))
  }

  function Apply(g: Graph, w: Write): Graph {
    match w.ref
    case NodeRef(n) => g.(nodes := Upsert(g.nodes, n, Fresh(w.ref), w.delta))
    case EdgeRef(e) => g.(edges := Upsert(g.edges, e, Fresh(w.ref), w.delta))
  }

  function Fold<S, A>(step: (S, A) -> S, start: S, xs: seq<A>): S {
    if xs == [] then start else step(Fold(step, start, xs[..|xs| - 1]), xs[|xs| - 1])
  }

  function ApplyAll(g: Graph, ws: seq<Write>): Graph { Fold(Apply, g, ws) }

  /** A graph together with every upsert made so far, in order. */
  datatype Journal = Journal(graph: Graph, log: seq<Write>)

  function Record(j: Journal, w: Write): Journal { Journal(Apply(j.graph, w), j.log + [w]) }

  function RecordAll(j: Journal, ws: seq<Write>): Journal { Fold(Record, j, ws) }

  /** Contents without the insertion orders. */
  datatype Contents = Contents(nodes: map<NodeId, Cell>, edges: map<EdgeId, Cell>)

  function ContentsOf(g: Graph): Contents { Contents(g.nodes.cells, g.edges.cells) }
}

/** The algebra of upserts. Merging is associative and a later cell that sets at least the
    same things absorbs an earlier one; everything about re-running a load follows. */
module GraphLaws {
  import opened Wrappers
  import opened Graphs

  // ---- One upsert --------------------------------------------------------------------------

  /** A dropped value is exactly an absent one. */
  lemma CleanExactly(props: Props, p: string)
    ensures p in Clean(props) <==> p in props && props[p] != Null
    ensures p in Clean(props) ==> Clean(props)[p] == props[p]
  {
  }

  /** A property is what the last write set it to; one that it does not mention is as it was,
      and of a new node it is there if it is a key. */
  lemma UpsertedNode(g: Graph, n: NodeId, delta: Cell, p: string)
    ensures var after := Apply(g, Write(NodeRef(n), delta));
            var before := if n in g.nodes.cells then g.nodes.cells[n] else Cell({n.Label()}, n.KeyProps());
            && n in after.nodes.cells
            && after.nodes.cells[n].labels == before.labels + delta.labels
            && (p in after.nodes.cells[n].props <==> p in delta.props || p in before.props)
            && (p in delta.props ==> after.nodes.cells[n].props[p] == delta.props[p])
            && (p !in delta.props && p in before.props ==> after.nodes.cells[n].props[p] == before.props[p])
  {
  }

  lemma UpsertedEdge(g: Graph, e: EdgeId, delta: Cell, p: string)
    ensures var after := Apply(g, Write(EdgeRef(e), delta));
            && e in after.edges.cells
            && (p in delta.props ==> p in after.edges.cells[e].props && after.edges.cells[e].props[p] == delta.props[p])
            && (p !in delta.props && e in g.edges.cells ==>
                  (p in after.edges.cells[e].props <==> p in g.edges.cells[e].props)
                  && (p in g.edges.cells[e].props ==> after.edges.cells[e].props[p] == g.edges.cells[e].props[p]))
            && (p !in delta.props && e !in g.edges.cells ==>
                  (p in after.edges.cells[e].props <==> p == "role" && e.role.Some?)
                  && (p == "role" && e.role.Some? ==> after.edges.cells[e].props[p] == Text(e.role.value)))
  {
  }

  /** Nothing else changes, and a new key goes last in its table. */
  lemma UpsertedElsewhere(g: Graph, w: Write)
    ensures w.ref.NodeRef? ==>
              && Apply(g, w).edges == g.edges
              && Apply(g, w).nodes.cells == g.nodes.cells[w.ref.node := At(Apply(g, w), w.ref)]
              && Apply(g, w).nodes.order
                 == if w.ref.node in g.nodes.cells then g.nodes.order else g.nodes.order + [w.ref.node]
    ensures w.ref.EdgeRef? ==>
              && Apply(g, w).nodes == g.nodes
              && Apply(g, w).edges.cells == g.edges.cells[w.ref.edge := At(Apply(g, w), w.ref)]
              && Apply(g, w).edges.order
                 == if w.ref.edge in g.edges.cells then g.edges.order else g.edges.order + [w.ref.edge]
  {
  }

  /** A node is filed under its base label and tells its own key. */
  lemma IdentityStored(n: NodeId)
    ensures var props := Fresh(NodeRef(n)).props;
            match n
            case Entity(uid) => n.Label() == "Entity" && props == map["uid" := Text(uid)]
            case Metric(k) => n.Label() == "Metric" && props == map["metric_key" := Text(k)]
            case Column(system, table, name) =>
              && n.Label() == "Column" && props.Keys == {"system", "table", "name"}
              && props["system"] == Text(system) && props["table"] == Text(table) && props["name"] == Text(name)
            case Document(uri) => n.Label() == "Document" && props == map["uri" := Text(uri)]
            case Benchmark(k) => n.Label() == "Benchmark" && props == map["benchmark_key" := Text(k)]
            case Party(uid) => n.Label() == "Party" && props == map["uid" := Text(uid)]
  {
  }

  /** Under one base label, nodes with the same key are the same node. */
  lemma IdentityIsKey(m: NodeId, n: NodeId)
    ensures m == n <==> m.Label() == n.Label() && m.KeyProps() == n.KeyProps()
  {
    IdentityStored(m);
    IdentityStored(n);
    assert m.KeyProps() == Fresh(NodeRef(m)).props && n.KeyProps() == Fresh(NodeRef(n)).props;
    match m
    case Entity(uid) => assert m.KeyProps()["uid"] == Text(uid);
    case Metric(k) => assert m.KeyProps()["metric_key"] == Text(k);
    case Column(_, _, _) =>
    case Document(uri) => assert m.KeyProps()["uri"] == Text(uri);
    case Benchmark(k) => assert m.KeyProps()["benchmark_key"] == Text(k);
    case Party(uid) => assert m.KeyProps()["uid"] == Text(uid);
  }

  // ---- Sequences of upserts ----------------------------------------------------------------

  /** `b` sets every label and property that `a` sets. */
  predicate Covers(b: Cell, a: Cell) {
    a.labels <= b.labels && a.props.Keys <= b.props.Keys
  }

  /** Same targets, same labels, same property names; the values may differ. */
  predicate Alike(v: Write, w: Write) {
    v.ref == w.ref && v.delta.labels == w.delta.labels && v.delta.props.Keys == w.delta.props.Keys
  }

  ghost predicate AllAlike(vs: seq<Write>, ws: seq<Write>) {
    |vs| == |ws| && forall i :: 0 <= i < |vs| ==> Alike(vs[i], ws[i])
  }

  predicate Targets(ws: seq<Write>, r: Ref) {
    ws != [] && (ws[|ws| - 1].ref == r || Targets(ws[..|ws| - 1], r))
  }

  lemma {:induction false} TargetsMember(ws: seq<Write>, w: Write)
    requires w in ws
    ensures Targets(ws, w.ref)
  {
    var n := |ws| - 1;
    assert ws == ws[..n] + [ws[n]];
    if w in ws[..n] { TargetsMember(ws[..n], w); }
  }

  lemma {:induction false} MemberTargets(ws: seq<Write>, r: Ref) returns (w: Write)
    requires Targets(ws, r)
    ensures w in ws && w.ref == r
  {
    var n := |ws| - 1;
    if ws[n].ref == r { w := ws[n]; } else { w := MemberTargets(ws[..n], r); }
  }

  lemma {:induction false} TargetsConcat(vs: seq<Write>, ws: seq<Write>, r: Ref)
    ensures Targets(vs + ws, r) <==> Targets(vs, r) || Targets(ws, r)
  {
    if ws == [] {
      assert vs + ws == vs;
    } else {
      assert (vs + ws)[..|vs + ws| - 1] == vs + ws[..|ws| - 1];
      TargetsConcat(vs, ws[..|ws| - 1], r);
    }
  }

  /** The combined effect of a write sequence on one node or edge. */
  function Net(ws: seq<Write>, r: Ref): Cell {
    if ws == [] then Zero else
      var w := ws[|ws| - 1];
      Merge(Net(ws[..|ws| - 1], r), if w.ref == r then w.delta else Zero)
  }

  lemma MergeAssociative(a: Cell, b: Cell, c: Cell)
    ensures Merge(Merge(a, b), c) == Merge(a, Merge(b, c))
  {
    assert (a.props + b.props) + c.props == a.props + (b.props + c.props);
  }

  lemma MergeCovered(a: Cell, b: Cell, c: Cell)
    requires Covers(c, b)
    ensures Merge(Merge(a, b), c) == Merge(a, c)
  {
    assert (a.props + b.props) + c.props == a.props + c.props;
    assert (a.labels + b.labels) + c.labels == a.labels + c.labels;
  }

  lemma MergeZero(a: Cell)
    ensures Merge(a, Zero) == a == Merge(Zero, a)
  {
  }

  lemma MergeLaws(a: Cell, b: Cell, c: Cell)
    ensures Merge(Merge(a, b), c) == Merge(a, Merge(b, c))
    ensures Covers(c, b) ==> Merge(Merge(a, b), c) == Merge(a, c)
    ensures Merge(a, Zero) == a == Merge(Zero, a)
  {
    MergeAssociative(a, b, c);
    if Covers(c, b) { MergeCovered(a, b, c); }
    MergeZero(a);
  }

  lemma Associative<T>(a: seq<T>, b: seq<T>, c: seq<T>)
    ensures (a + b) + c == a + (b + c)
  {
  }

  lemma {:induction false} FoldConcat<S, A>(step: (S, A) -> S, start: S, xs: seq<A>, ys: seq<A>)
    ensures Fold(step, start, xs + ys) == Fold(step, Fold(step, start, xs), ys)
  {
    if ys == [] {
      assert xs + ys == xs;
    } else {
      var init := ys[..|ys| - 1];
      FoldConcat(step, start, xs, init);
      assert (xs + ys)[..|xs + ys| - 1] == xs + init;
    }
  }

  lemma ApplyAllConcat(g: Graph, vs: seq<Write>, ws: seq<Write>)
    ensures ApplyAll(g, vs + ws) == ApplyAll(ApplyAll(g, vs), ws)
  {
    FoldConcat(Apply, g, vs, ws);
  }

  lemma ApplyAllLast(g: Graph, ws: seq<Write>)
    requires ws != []
    ensures ApplyAll(g, ws) == Apply(ApplyAll(g, ws[..|ws| - 1]), ws[|ws| - 1])
  {
  }

  lemma ApplyOne(g: Graph, w: Write)
    ensures ApplyAll(g, []) == g && ApplyAll(g, [w]) == Apply(g, w)
  {
    assert [w][..0] == [];
  }

  lemma RecordAllConcat(j: Journal, vs: seq<Write>, ws: seq<Write>)
    ensures RecordAll(j, vs + ws) == RecordAll(RecordAll(j, vs), ws)
  {
    FoldConcat(Record, j, vs, ws);
  }

  lemma RecordOne(j: Journal, w: Write)
    ensures RecordAll(j, []) == j && RecordAll(j, [w]) == Record(j, w)
  {
    assert [w][..0] == [];
  }

  /** Recording makes exactly the given upserts, one after another. */
  lemma {:induction false} Recorded(j: Journal, ws: seq<Write>)
    ensures RecordAll(j, ws) == Journal(ApplyAll(j.graph, ws), j.log + ws)
  {
    if ws == [] {
      assert j.log + ws == j.log;
    } else {
      var init, w := ws[..|ws| - 1], ws[|ws| - 1];
      assert ws == init + [w];
      Recorded(j, init);
      assert RecordAll(j, ws) == Record(RecordAll(j, init), w);
      assert j.log + init + [w] == j.log + ws;
    }
  }

  lemma {:induction false} NetConcat(vs: seq<Write>, ws: seq<Write>, r: Ref)
    ensures Net(vs + ws, r) == Merge(Net(vs, r), Net(ws, r))
  {
    if ws == [] {
      assert vs + ws == vs;
      MergeLaws(Net(vs, r), Zero, Zero);
    } else {
      var all, n := vs + ws, |ws| - 1;
      assert all[..|all| - 1] == vs + ws[..n];
      NetConcat(vs, ws[..n], r);
      MergeLaws(Net(vs, r), Net(ws[..n], r), if ws[n].ref == r then ws[n].delta else Zero);
    }
  }

  lemma {:induction false} NetUntargeted(ws: seq<Write>, r: Ref)
    requires !Targets(ws, r)
    ensures Net(ws, r) == Zero
  {
    if ws != [] { NetUntargeted(ws[..|ws| - 1], r); }
  }

  lemma FindAfter(g: Graph, w: Write, r: Ref)
    ensures Find(Apply(g, w), r) == if w.ref == r then Some(Merge(At(g, r), w.delta)) else Find(g, r)
  {
  }

  lemma NetSnoc(init: seq<Write>, w: Write, r: Ref)
    ensures Net(init + [w], r) == if w.ref == r then Merge(Net(init, r), w.delta) else Net(init, r)
    ensures Targets(init + [w], r) <==> Targets(init, r) || w.ref == r
  {
    assert (init + [w])[..|init|] == init;
    MergeLaws(Net(init, r), Zero, Zero);
  }

  ghost predicate ActsOn(g: Graph, ws: seq<Write>, g': Graph, r: Ref) {
    Find(g', r) == if Targets(ws, r) then Some(Merge(At(g, r), Net(ws, r))) else Find(g, r)
  }

  lemma ActsOnSnoc(g: Graph, init: seq<Write>, mid: Graph, w: Write, ws: seq<Write>, last: Graph, r: Ref)
    requires ActsOn(g, init, mid, r)
    requires ws == init + [w] && last == Apply(mid, w)
    ensures ActsOn(g, ws, last, r)
  {
    FindAfter(mid, w, r);
    NetSnoc(init, w, r);
    if w.ref == r {
      if Targets(init, r) {
        MergeAssociative(At(g, r), Net(init, r), w.delta);
      } else {
        NetUntargeted(init, r);
        MergeZero(w.delta);
      }
    }
  }

  lemma {:induction false} ActsOnAll(g: Graph, ws: seq<Write>, r: Ref)
    ensures ActsOn(g, ws, ApplyAll(g, ws), r)
  {
    if ws == [] {
      assert ApplyAll(g, ws) == g;
    } else {
      var init, w := ws[..|ws| - 1], ws[|ws| - 1];
      assert ws == init + [w];
      ActsOnAll(g, init, r);
      assert ApplyAll(g, ws) == Apply(ApplyAll(g, init), w) by { ApplyAllLast(g, ws); }
      ActsOnSnoc(g, init, ApplyAll(g, init), w, ws, ApplyAll(g, ws), r);
    }
  }

  /** A write sequence acts on each node and edge separately, by its net effect there. */
  lemma FindAfterAll(g: Graph, ws: seq<Write>, r: Ref)
    ensures Find(ApplyAll(g, ws), r)
         == if Targets(ws, r) then Some(Merge(At(g, r), Net(ws, r))) else Find(g, r)
  {
    ActsOnAll(g, ws, r);
  }

  lemma {:induction false} NetAlike(vs: seq<Write>, ws: seq<Write>, r: Ref)
    requires AllAlike(vs, ws)
    ensures Net(vs, r).labels == Net(ws, r).labels
    ensures Net(vs, r).props.Keys == Net(ws, r).props.Keys
    ensures Targets(vs, r) <==> Targets(ws, r)
  {
    if vs != [] {
      var n := |vs| - 1;
      assert Alike(vs[n], ws[n]);
      NetAlike(vs[..n], ws[..n], r);
    }
  }

  /** Every element of a sequence is covered by the sequence's net effect. */
  lemma {:induction false} NetCoversElement(ws: seq<Write>, w: Write)
    requires w in ws
    ensures Covers(Net(ws, w.ref), w.delta)
  {
    var n := |ws| - 1;
    assert ws == ws[..n] + [ws[n]];
    if w in ws[..n] { NetCoversElement(ws[..n], w); }
  }

  lemma {:induction false} NetOfPart(part: seq<Write>, ws: seq<Write>, r: Ref)
    requires forall w :: w in part ==> w in ws
    ensures Covers(Net(ws, r), Net(part, r))
  {
    if part != [] {
      var n := |part| - 1;
      assert forall w :: w in part[..n] ==> w in part;
      NetOfPart(part[..n], ws, r);
      assert part[n] in ws;
      if part[n].ref == r { NetCoversElement(ws, part[n]); }
    }
  }

  lemma {:induction false} ElementsAtMost<K>(s: seq<K>)
    ensures |set k | k in s| <= |s|
  {
    if s != [] {
      var init := s[..|s| - 1];
      ElementsAtMost(init);
      assert (set k | k in s) == (set k | k in init) + {s[|s| - 1]};
    }
  }

  lemma NoRepeats<K(!new)>(t: Table<K>, i: nat, j: nat)
    requires i < j < |t.order|
    ensures t.order[i] != t.order[j]
  {
    var rest := t.order[..j] + t.order[j + 1..];
    ElementsAtMost(rest);
    assert forall m {:trigger t.order[m]} :: 0 <= m < |t.order| && m != j ==>
      t.order[m] == rest[if m < j then m else m - 1];
    assert t.order[i] == t.order[j] ==> forall k :: k in t.cells.Keys ==> k in (set k | k in rest);
    assert t.order[i] == t.order[j] ==> t.cells.Keys == set k | k in rest;
    assert |t.cells.Keys| == |t.cells|;
  }

  lemma GraphsEqual(g: Graph, h: Graph)
    requires g.nodes.order == h.nodes.order && g.edges.order == h.edges.order
    requires forall r :: Find(g, r) == Find(h, r)
    ensures g == h
  {
    forall n: NodeId ensures n in g.nodes.cells <==> n in h.nodes.cells
                     ensures n in g.nodes.cells ==> g.nodes.cells[n] == h.nodes.cells[n] {
      assert Find(g, NodeRef(n)) == Find(h, NodeRef(n));
    }
    forall e: EdgeId ensures e in g.edges.cells <==> e in h.edges.cells
                     ensures e in g.edges.cells ==> g.edges.cells[e] == h.edges.cells[e] {
      assert Find(g, EdgeRef(e)) == Find(h, EdgeRef(e));
    }
    assert g.nodes.cells == h.nodes.cells && g.edges.cells == h.edges.cells;
  }

  lemma {:induction false} OrderAlike(g: Graph, vs: seq<Write>, ws: seq<Write>)
    requires AllAlike(vs, ws)
    ensures ApplyAll(g, vs).nodes.order == ApplyAll(g, ws).nodes.order
    ensures ApplyAll(g, vs).edges.order == ApplyAll(g, ws).edges.order
  {
    if vs != [] {
      var n := |vs| - 1;
      OrderAlike(g, vs[..n], ws[..n]);
      ApplyAllLast(g, vs);
      ApplyAllLast(g, ws);
      assert Alike(vs[n], ws[n]);
      var gv, gw := ApplyAll(g, vs[..n]), ApplyAll(g, ws[..n]);
      assert forall k :: k in gv.nodes.cells <==> k in gw.nodes.cells by {
        assert forall k :: k in gv.nodes.order <==> k in gw.nodes.order;
      }
      assert forall k :: k in gv.edges.cells <==> k in gw.edges.cells by {
        assert forall k :: k in gv.edges.order <==> k in gw.edges.order;
      }
    }
  }

  lemma {:induction false} OrderKept(g: Graph, ws: seq<Write>)
    requires forall w :: w in ws ==> Present(g, w.ref)
    ensures ApplyAll(g, ws).nodes.order == g.nodes.order
    ensures ApplyAll(g, ws).edges.order == g.edges.order
  {
    if ws != [] {
      var n := |ws| - 1;
      assert ws[n] in ws && forall w :: w in ws[..n] ==> w in ws;
      OrderKept(g, ws[..n]);
      ApplyAllLast(g, ws);
      FindAfterAll(g, ws[..n], ws[n].ref);
    }
  }

  lemma AllPresent(g: Graph, ws: seq<Write>)
    ensures forall w :: w in ws ==> Present(ApplyAll(g, ws), w.ref)
  {
    forall w | w in ws ensures Present(ApplyAll(g, ws), w.ref) {
      TargetsMember(ws, w);
      FindAfterAll(g, ws, w.ref);
    }
  }

  /** Running a write sequence and then one that sets the same things is the same as running
      only the second, insertion orders included. */
  lemma Absorb(g: Graph, vs: seq<Write>, ws: seq<Write>)
    requires AllAlike(vs, ws)
    ensures ApplyAll(ApplyAll(g, vs), ws) == ApplyAll(g, ws)
  {
    var once := ApplyAll(g, vs);
    var both, direct := ApplyAll(once, ws), ApplyAll(g, ws);
    AllPresent(g, vs);
    forall w | w in ws ensures Present(once, w.ref) {
      var i :| 0 <= i < |ws| && ws[i] == w;
      assert Alike(vs[i], ws[i]) && vs[i] in vs;
    }
    OrderKept(once, ws);
    OrderAlike(g, vs, ws);
    forall r ensures Find(both, r) == Find(direct, r) {
      FindAfterAll(once, ws, r);
      FindAfterAll(g, vs, r);
      FindAfterAll(g, ws, r);
      NetAlike(vs, ws, r);
      MergeLaws(At(g, r), Net(vs, r), Net(ws, r));
    }
    GraphsEqual(both, direct);
  }

  /** Prefix absorption: an interrupted run of `vs`, followed by a whole run of `ws` that
      sets the same things, leaves what the whole run alone leaves. */
  lemma PrefixAbsorb(g: Graph, vs: seq<Write>, ws: seq<Write>, k: nat)
    requires AllAlike(vs, ws) && k <= |vs|
    ensures ApplyAll(ApplyAll(g, vs[..k]), ws) == ApplyAll(g, ws)
  {
    assert ws == ws[..k] + ws[k..];
    Absorb(g, vs[..k], ws[..k]);
    ApplyAllConcat(ApplyAll(g, vs[..k]), ws[..k], ws[k..]);
    ApplyAllConcat(g, ws[..k], ws[k..]);
  }
}
