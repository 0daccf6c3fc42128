/** The dictionary-backed store: two insertion-ordered tables updated in place. A ghost log
    keeps the upserts themselves, so that what a caller writes, and in which order, can be
    told apart from the graph it leaves. */
module Stores {
  import opened Wrappers
  import opened Graphs
  import opened GraphLaws

  datatype NodeView = NodeView(id: NodeId, cell: Cell)

  datatype Neighbor = Neighbor(node: NodeView, edge: Cell)

  /** The stored nodes with one base label, in insertion order. */
  function NodesIn(cells: map<NodeId, Cell>, order: seq<NodeId>, base: string): seq<NodeView> {
    if order == [] then [] else
      var n := order[|order| - 1];
      NodesIn(cells, order[..|order| - 1], base)
        + if n in cells && n.Label() == base then [NodeView(n, cells[n])] else []
  }

  function NodesByLabel(g: Graph, base: string): seq<NodeView> {
    NodesIn(g.nodes.cells, g.nodes.order, base)
  }

  /** The outgoing edges of one type whose far end is stored, in edge insertion order. */
  function NeighborsIn(g: Graph, order: seq<EdgeId>, src: NodeId, rel: string): seq<Neighbor> {
    if order == [] then [] else
      var e := order[|order| - 1];
      NeighborsIn(g, order[..|order| - 1], src, rel)
        + if e.rel == rel && e.src == src && e.dst in g.nodes.cells && e in g.edges.cells
          then [Neighbor(NodeView(e.dst, g.nodes.cells[e.dst]), g.edges.cells[e])] else []
  }

  function OutNeighbors(g: Graph, src: NodeId, rel: string): seq<Neighbor> {
    NeighborsIn(g, g.edges.order, src, rel)
  }

  lemma NeighborsStep(g: Graph, i: nat, src: NodeId, rel: string)
    requires i < |g.edges.order|
    ensures var e := g.edges.order[i];
            && e in g.edges.cells
            && NeighborsIn(g, g.edges.order[..i + 1], src, rel) == NeighborsIn(g, g.edges.order[..i], src, rel)
               + if e.rel == rel && e.src == src && e.dst in g.nodes.cells
                 then [Neighbor(NodeView(e.dst, g.nodes.cells[e.dst]), g.edges.cells[e])] else []
  {
    assert g.edges.order[..i + 1][..i] == g.edges.order[..i];
  }

  class InMemoryGraphStore {
    var nodes: Table<NodeId>
    var edges: Table<EdgeId>
    ghost var log: seq<Write>

    function Contents(): Graph
      reads this
    {
      Graph(nodes, edges)
    }

    ghost function History(): Journal
      reads this
    {
      Journal(Contents(), log)
    }

    constructor ()
      ensures History() == Journal(Empty, [])
    {
      nodes, edges := Table([], map[]), Table([], map[]);
      log := [];
    }

    method UpsertNode(id: NodeId, setProps: Props, extraLabels: set<string>)
      modifies this
      ensures History() == Record(old(History()), Write(NodeRef(id), Cell(extraLabels, setProps)))
    {
      var node := if id in nodes.cells then nodes.cells[id] else Fresh(NodeRef(id));
      nodes := Put(nodes, id, Merge(node, Cell(extraLabels, setProps)));
      log := log + [Write(NodeRef(id), Cell(extraLabels, setProps))];
    }

    method UpsertEdge(id: EdgeId, setProps: Props)
      modifies this
      ensures History() == Record(old(History()), Write(EdgeRef(id), Cell({}, setProps)))
    {
      var edge := if id in edges.cells then edges.cells[id] else Fresh(EdgeRef(id));
      edges := Put(edges, id, Merge(edge, Cell({}, setProps)));
      log := log + [Write(EdgeRef(id), Cell({}, setProps))];
    }

    method GetNode(id: NodeId) returns (node: Option<Cell>)
      ensures node == if id in nodes.cells then Some(nodes.cells[id]) else None
      ensures node == Find(Contents(), NodeRef(id))
    {
      node := if id in nodes.cells then Some(nodes.cells[id]) else None;
    }

    method FindOutNeighbors(src: NodeId, rel: string) returns (found: seq<Neighbor>)
      ensures found == OutNeighbors(Contents(), src, rel)
    {
      found := [];
      ghost var g := Contents();
      for i := 0 to |edges.order|
        invariant found == NeighborsIn(g, edges.order[..i], src, rel)
      {
        var e := edges.order[i];
        NeighborsStep(g, i, src, rel);
        if e.rel == rel && e.src == src {
          if e.dst in nodes.cells {
            found := found + [Neighbor(NodeView(e.dst, nodes.cells[e.dst]), edges.cells[e])];
          }
        }
      }
      assert edges.order[..|edges.order|] == edges.order;
    }

    method FindNodesByLabel(base: string) returns (found: seq<NodeView>)
      ensures found == NodesByLabel(Contents(), base)
    {
      found := [];
      for i := 0 to |nodes.order|
        invariant found == NodesIn(nodes.cells, nodes.order[..i], base)
      {
        var n := nodes.order[i];
        assert nodes.order[..i + 1][..i] == nodes.order[..i];
        if n.Label() == base {
          found := found + [NodeView(n, nodes.cells[n])];
        }
      }
      assert nodes.order[..|nodes.order|] == nodes.order;
    }
  }

  // ---- What the reads mean -------------------------------------------------------------

  lemma {:induction false} NodesInMembers(cells: map<NodeId, Cell>, order: seq<NodeId>, base: string, v: NodeView)
    ensures v in NodesIn(cells, order, base) <==>
            v.id in order && v.id in cells && cells[v.id] == v.cell && v.id.Label() == base
  {
    if order != [] {
      assert order == order[..|order| - 1] + [order[|order| - 1]];
      NodesInMembers(cells, order[..|order| - 1], base, v);
    }
  }

  /** `nodes_by_label` lists exactly the stored nodes with that base label. */
  lemma NodesByLabelMembers(g: Graph, base: string, v: NodeView)
    ensures v in NodesByLabel(g, base) <==> Find(g, NodeRef(v.id)) == Some(v.cell) && v.id.Label() == base
  {
    NodesInMembers(g.nodes.cells, g.nodes.order, base, v);
  }

  lemma {:induction false} NeighborsInMembers(g: Graph, order: seq<EdgeId>, src: NodeId, rel: string, n: Neighbor)
    ensures n in NeighborsIn(g, order, src, rel) <==>
            exists e :: e in order && e in g.edges.cells && e.rel == rel && e.src == src && e.dst == n.node.id
                     && Find(g, NodeRef(e.dst)) == Some(n.node.cell) && g.edges.cells[e] == n.edge
  {
    if order != [] {
      var init, last := order[..|order| - 1], order[|order| - 1];
      assert order == init + [last];
      NeighborsInMembers(g, init, src, rel, n);
      if n in NeighborsIn(g, order, src, rel) && n !in NeighborsIn(g, init, src, rel) {
        assert last in order;
      }
    }
  }

  /** `out_neighbors` lists exactly the stored edges of that source and type whose target is
      a stored node. */
  lemma OutNeighborsMembers(g: Graph, src: NodeId, rel: string, n: Neighbor)
    ensures n in OutNeighbors(g, src, rel) <==>
            exists e :: e in g.edges.cells && e.rel == rel && e.src == src && e.dst == n.node.id
                     && Find(g, NodeRef(e.dst)) == Some(n.node.cell) && g.edges.cells[e] == n.edge
  {
    NeighborsInMembers(g, g.edges.order, src, rel, n);
  }

  // ---- Order -------------------------------------------------------------------------------

  /** Positions in a list, in increasing order. */
  predicate Increasing(at: seq<nat>, n: nat) {
    && (forall i :: 0 <= i < |at| ==> at[i] < n)
    && forall i, j :: 0 <= i < j < |at| ==> at[i] < at[j]
  }

  lemma IncreasingSnoc(at: seq<nat>, n: nat)
    requires Increasing(at, n)
    ensures Increasing(at + [n], n + 1)
  {
  }

  lemma {:induction false} NodesInOrder(cells: map<NodeId, Cell>, order: seq<NodeId>, base: string)
    returns (at: seq<nat>)
    ensures var found := NodesIn(cells, order, base);
            && |at| == |found| && Increasing(at, |order|)
            && forall i :: 0 <= i < |found| ==> found[i].id == order[at[i]]
  {
    if order == [] {
      at := [];
    } else {
      var init := order[..|order| - 1];
      var before := NodesInOrder(cells, init, base);
      at := before;
      if |NodesIn(cells, order, base)| > |NodesIn(cells, init, base)| {
        IncreasingSnoc(before, |init|);
        at := before + [|init|];
      }
    }
  }

  /** Nodes are listed in insertion order, each once. */
  lemma NodesByLabelInOrder(g: Graph, base: string) returns (at: seq<nat>)
    ensures var found := NodesByLabel(g, base);
            && |at| == |found| && Increasing(at, |g.nodes.order|)
            && forall i :: 0 <= i < |found| ==> found[i].id == g.nodes.order[at[i]]
  {
    at := NodesInOrder(g.nodes.cells, g.nodes.order, base);
  }

  lemma {:induction false} NeighborsInOrder(g: Graph, order: seq<EdgeId>, src: NodeId, rel: string)
    returns (at: seq<nat>)
    ensures var found := NeighborsIn(g, order, src, rel);
            && |at| == |found| && Increasing(at, |order|)
            && forall i :: 0 <= i < |found| ==>
                 && order[at[i]].rel == rel && order[at[i]].src == src && order[at[i]].dst == found[i].node.id
                 && order[at[i]] in g.edges.cells && g.edges.cells[order[at[i]]] == found[i].edge
  {
    if order == [] {
      at := [];
    } else {
      var init := order[..|order| - 1];
      var before := NeighborsInOrder(g, init, src, rel);
      at := before;
      if |NeighborsIn(g, order, src, rel)| > |NeighborsIn(g, init, src, rel)| {
        IncreasingSnoc(before, |init|);
        at := before + [|init|];
      }
    }
  }

  /** Neighbors are listed in the insertion order of their edges, one for each. */
  lemma OutNeighborsInOrder(g: Graph, src: NodeId, rel: string) returns (at: seq<nat>)
    ensures var found := OutNeighbors(g, src, rel);
            && |at| == |found| && Increasing(at, |g.edges.order|)
            && forall i :: 0 <= i < |found| ==>
                 var e := g.edges.order[at[i]];
                 && e.rel == rel && e.src == src && e.dst == found[i].node.id
                 && e in g.edges.cells && g.edges.cells[e] == found[i].edge
  {
    at := NeighborsInOrder(g, g.edges.order, src, rel);
  }

  // ---- Writes that leave a label alone -------------------------------------------------

  predicate Avoids(ws: seq<Write>, base: string) {
    forall w :: w in ws && w.ref.NodeRef? ==> w.ref.node.Label() != base
  }

  lemma {:induction false} NodesInKept(cells: map<NodeId, Cell>, order: seq<NodeId>, base: string, n: NodeId,
                                       cell: Cell)
    requires n.Label() != base
    ensures NodesIn(cells[n := cell], order, base) == NodesIn(cells, order, base)
  {
    if order != [] { NodesInKept(cells, order[..|order| - 1], base, n, cell); }
  }

  lemma {:induction false} NodesByLabelKept(g: Graph, ws: seq<Write>, base: string)
    requires Avoids(ws, base)
    ensures NodesByLabel(ApplyAll(g, ws), base) == NodesByLabel(g, base)
  {
    if ws != [] {
      var init, w := ws[..|ws| - 1], ws[|ws| - 1];
      assert w in ws && forall v :: v in init ==> v in ws;
      NodesByLabelKept(g, init, base);
      ApplyAllLast(g, ws);
      if w.ref.NodeRef? {
        var mid := ApplyAll(g, init);
        var n, cell := w.ref.node, Merge(At(mid, w.ref), w.delta);
        NodesInKept(mid.nodes.cells, mid.nodes.order, base, n, cell);
        if n !in mid.nodes.cells {
          var longer := mid.nodes.order + [n];
          assert longer[..|longer| - 1] == mid.nodes.order;
        }
      }
    }
  }
}
