/** The database-backed store, reduced to the one way in which it differs: an edge upsert
    first matches both endpoints, and does nothing when one is missing. */
module StrictStore {
  import opened Wrappers
  import opened Graphs
  import opened GraphLaws

  predicate BothEnds(g: Graph, e: EdgeId) {
    e.src in g.nodes.cells && e.dst in g.nodes.cells
  }

  predicate Effective(g: Graph, w: Write) {
    w.ref.EdgeRef? ==> BothEnds(g, w.ref.edge)
  }

  function Strict(g: Graph, w: Write): Graph {
    if Effective(g, w) then Apply(g, w) else g
  }

  /** A new edge is stored exactly when both its endpoints are; a node write always acts. */
  lemma StrictWrites(g: Graph, w: Write)
    ensures w.ref.NodeRef? ==> Strict(g, w) == Apply(g, w)
    ensures w.ref.EdgeRef? ==>
              Strict(g, w) == if w.ref.edge.src in g.nodes.cells && w.ref.edge.dst in g.nodes.cells
                              then Apply(g, w) else g
    ensures w.ref.EdgeRef? && w.ref.edge !in g.edges.cells ==>
              (w.ref.edge in Strict(g, w).edges.cells
               <==> w.ref.edge.src in g.nodes.cells && w.ref.edge.dst in g.nodes.cells)
  {
  }

  function StrictAll(g: Graph, ws: seq<Write>): Graph {
    if ws == [] then g else Strict(StrictAll(g, ws[..|ws| - 1]), ws[|ws| - 1])
  }

  predicate NoDangling(g: Graph) {
    forall e :: e in g.edges.cells ==> BothEnds(g, e)
  }

  /** The writes that take effect, in order. */
  function Executed(g: Graph, ws: seq<Write>): seq<Write> {
    if ws == [] then [] else
      var init, w := ws[..|ws| - 1], ws[|ws| - 1];
      Executed(g, init) + if Effective(StrictAll(g, init), w) then [w] else []
  }

  lemma {:induction false} StrictIsExecuted(g: Graph, ws: seq<Write>)
    ensures StrictAll(g, ws) == ApplyAll(g, Executed(g, ws))
    ensures forall w :: w in Executed(g, ws) ==> w in ws
  {
    if ws != [] {
      var init, w := ws[..|ws| - 1], ws[|ws| - 1];
      StrictIsExecuted(g, init);
      if Effective(StrictAll(g, init), w) {
        var done := Executed(g, ws);
        assert done[..|done| - 1] == Executed(g, init);
        ApplyAllLast(g, done);
      } else {
        assert Executed(g, ws) == Executed(g, init);
      }
      assert forall v :: v in init ==> v in ws;
    }
  }

  /** Nodes do not depend on edges. */
  lemma {:induction false} SameNodes(g: Graph, h: Graph, ws: seq<Write>)
    requires g.nodes == h.nodes
    ensures StrictAll(g, ws).nodes == ApplyAll(h, ws).nodes
  {
    if ws != [] {
      var init, w := ws[..|ws| - 1], ws[|ws| - 1];
      SameNodes(g, h, init);
      ApplyAllLast(h, ws);
      var a, b := StrictAll(g, init), ApplyAll(h, init);
      if w.ref.NodeRef? { assert Find(a, w.ref) == Find(b, w.ref); }
    }
  }

  lemma {:induction false} EffectiveEnds(g: Graph, ws: seq<Write>, w: Write)
    requires w in Executed(g, ws)
    ensures Effective(StrictAll(g, ws), w)
  {
    var init, last := ws[..|ws| - 1], ws[|ws| - 1];
    if w in Executed(g, init) { EffectiveEnds(g, init, w); }
  }

  ghost predicate NodesWritten(g: Graph, ws: seq<Write>) {
    forall w :: w in ws && w.ref.NodeRef? ==> w.ref.node in g.nodes.cells
  }

  /** Once every node of the sequence exists, running it adds none. */
  lemma {:induction false} NodesSettled(h: Graph, ws: seq<Write>)
    requires NodesWritten(h, ws)
    ensures StrictAll(h, ws).nodes.cells.Keys == h.nodes.cells.Keys
  {
    if ws != [] {
      var init, w := ws[..|ws| - 1], ws[|ws| - 1];
      assert w in ws && forall v :: v in init ==> v in ws;
      NodesSettled(h, init);
    }
  }

  /** Once every node of the sequence exists, an edge write takes effect exactly when both
      its endpoints exist. */
  lemma {:induction false} SecondPass(h: Graph, ws: seq<Write>, e: EdgeId)
    requires NodesWritten(h, ws)
    ensures StrictAll(h, ws).nodes.cells.Keys == h.nodes.cells.Keys
    ensures Net(Executed(h, ws), EdgeRef(e)) == if BothEnds(h, e) then Net(ws, EdgeRef(e)) else Zero
    ensures Targets(Executed(h, ws), EdgeRef(e)) <==> BothEnds(h, e) && Targets(ws, EdgeRef(e))
  {
    if ws != [] {
      var init, w := ws[..|ws| - 1], ws[|ws| - 1];
      assert w in ws && forall v :: v in init ==> v in ws;
      SecondPass(h, init, e);
      assert ws == init + [w];
      NetSnoc(init, w, EdgeRef(e));
      NetSnoc(Executed(h, init), w, EdgeRef(e));
      var mid := StrictAll(h, init);
      if w.ref.EdgeRef? {
        assert Effective(mid, w) <==> BothEnds(h, w.ref.edge);
        MergeLaws(w.delta, Zero, Zero);
      }
      assert Executed(h, init) + [] == Executed(h, init);
    }
  }

  /** One edge, after two strict passes from a graph without dangling edges. */
  lemma EdgeAfterTwoPasses(g: Graph, ws: seq<Write>, e: EdgeId)
    requires NoDangling(g)
    ensures var once := StrictAll(g, ws);
            var twice := StrictAll(once, ws);
            var whole := ApplyAll(g, ws);
            Find(twice, EdgeRef(e)) == if BothEnds(whole, e) then Find(whole, EdgeRef(e)) else None
  {
    var r, once, whole := EdgeRef(e), StrictAll(g, ws), ApplyAll(g, ws);
    SameNodes(g, g, ws);
    StrictIsExecuted(g, ws);
    StrictIsExecuted(once, ws);
    AllPresent(g, ws);
    forall w | w in ws && w.ref.NodeRef? ensures w.ref.node in once.nodes.cells {
      assert Present(whole, w.ref);
    }
    SecondPass(once, ws, e);
    FindAfterAll(g, ws, r);
    FindAfterAll(g, Executed(g, ws), r);
    FindAfterAll(once, Executed(once, ws), r);
    FindAfterAll(g, ws, NodeRef(e.src));
    FindAfterAll(g, ws, NodeRef(e.dst));
    if Targets(Executed(g, ws), r) {
      var w := MemberTargets(Executed(g, ws), r);
      EffectiveEnds(g, ws, w);
      TargetsMember(ws, w);
      NetOfPart(Executed(g, ws), ws, r);
      MergeLaws(At(g, r), Net(Executed(g, ws), r), Net(ws, r));
    }
  }

  /** The part of a graph whose edges have both endpoints. */
  function Anchored(g: Graph): map<EdgeId, Cell> {
    map e | e in g.edges.cells && BothEnds(g, e) :: g.edges.cells[e]
  }

  lemma EdgesAfterTwoPasses(g: Graph, ws: seq<Write>)
    requires NoDangling(g)
    ensures StrictAll(StrictAll(g, ws), ws).edges.cells == Anchored(ApplyAll(g, ws))
  {
    var whole, twice := ApplyAll(g, ws), StrictAll(StrictAll(g, ws), ws);
    forall e: EdgeId
      ensures Find(twice, EdgeRef(e)) == if BothEnds(whole, e) then Find(whole, EdgeRef(e)) else None
    {
      EdgeAfterTwoPasses(g, ws, e);
    }
    EdgeMapsEqual(twice, whole);
  }

  lemma EdgeMapsEqual(g: Graph, whole: Graph)
    requires forall e: EdgeId ::
      Find(g, EdgeRef(e)) == if BothEnds(whole, e) then Find(whole, EdgeRef(e)) else None
    ensures g.edges.cells == Anchored(whole)
  {
    forall e: EdgeId ensures e in g.edges.cells <==> e in Anchored(whole)
                     ensures e in g.edges.cells ==> g.edges.cells[e] == Anchored(whole)[e] {
      assert Find(g, EdgeRef(e)) == if BothEnds(whole, e) then Find(whole, EdgeRef(e)) else None;
    }
  }

  lemma NodesAfterTwoPasses(g: Graph, ws: seq<Write>)
    ensures StrictAll(StrictAll(g, ws), ws).nodes == ApplyAll(g, ws).nodes
  {
    AllAlikeSelf(ws);
    SameNodes(g, g, ws);
    SameNodes(StrictAll(g, ws), ApplyAll(g, ws), ws);
    Absorb(g, ws, ws);
  }

  /** Two passes over the strict store give the nodes of one pass over the permissive one
      and exactly its edges whose endpoints both exist; a third pass changes nothing. */
  lemma TwoPassConvergence(g: Graph, ws: seq<Write>)
    requires NoDangling(g)
    ensures var twice := StrictAll(StrictAll(g, ws), ws);
            var whole := ApplyAll(g, ws);
            && twice.nodes == whole.nodes
            && twice.edges.cells == Anchored(whole)
            && NoDangling(twice)
            && StrictAll(twice, ws) == twice
  {
    NodesAfterTwoPasses(g, ws);
    EdgesAfterTwoPasses(g, ws);
    ThirdPass(g, ws);
  }

  lemma AllAlikeSelf(ws: seq<Write>)
    ensures AllAlike(ws, ws)
  {
  }

  lemma ThirdPass(g: Graph, ws: seq<Write>)
    requires NoDangling(g)
    ensures var twice := StrictAll(StrictAll(g, ws), ws); StrictAll(twice, ws) == twice
  {
    var once := StrictAll(g, ws);
    var twice := StrictAll(once, ws);
    var done := Executed(once, ws);
    AllAlikeSelf(ws);
    AllAlikeSelf(done);
    SameNodes(g, g, ws);
    AllPresent(g, ws);
    assert NodesWritten(once, ws) by {
      forall w | w in ws && w.ref.NodeRef? ensures w.ref.node in once.nodes.cells {
        assert Present(ApplyAll(g, ws), w.ref);
      }
    }
    StrictIsExecuted(once, ws);
    SameExecuted(once, twice, ws);
    StrictIsExecuted(twice, ws);
    Absorb(once, done, done);
  }

  /** The writes that take effect are the same in every later pass. */
  lemma {:induction false} SameExecuted(g: Graph, h: Graph, ws: seq<Write>)
    requires NodesWritten(g, ws) && h == StrictAll(g, ws)
    ensures Executed(g, ws) == Executed(h, ws)
  {
    NodesSettled(g, ws);
    ExecutedByKeys(g, h, ws);
  }

  lemma {:induction false} ExecutedByKeys(g: Graph, h: Graph, ws: seq<Write>)
    requires NodesWritten(g, ws) && g.nodes.cells.Keys == h.nodes.cells.Keys
    ensures Executed(g, ws) == Executed(h, ws)
  {
    if ws != [] {
      var init, w := ws[..|ws| - 1], ws[|ws| - 1];
      assert w in ws && forall v :: v in init ==> v in ws;
      ExecutedByKeys(g, h, init);
      NodesSettled(g, init);
      NodesSettled(h, init);
    }
  }
}
