/** What the tier-1 index contains, and what teaching an alias does to it. */
module AliasLaws {
  import opened Wrappers
  import opened PyStrings
  import opened Graphs
  import opened GraphLaws
  import opened Stores
  import opened Client

  predicate ListedIn(aliases: seq<string>, name: string) {
    exists i :: 0 <= i < |aliases| && Casefold(aliases[i]) == name
  }

  /** Some alias of the metric case-folds to `name`. */
  predicate Lists(v: NodeView, name: string) { ListedIn(AliasesOf(v.cell), name) }

  lemma {:induction false} AddAliasesEntry(index: map<string, string>, aliases: seq<string>, metricKey: string,
                                           name: string)
    ensures name in AddAliases(index, aliases, metricKey) <==> ListedIn(aliases, name) || name in index
    ensures ListedIn(aliases, name) ==> AddAliases(index, aliases, metricKey)[name] == metricKey
    ensures !ListedIn(aliases, name) && name in index ==> AddAliases(index, aliases, metricKey)[name] == index[name]
  {
    if aliases != [] {
      var init := aliases[..|aliases| - 1];
      AddAliasesEntry(index, init, metricKey, name);
      assert ListedIn(aliases, name) <==> ListedIn(init, name) || Casefold(aliases[|aliases| - 1]) == name by {
        if i :| 0 <= i < |init| && Casefold(init[i]) == name { assert Casefold(aliases[i]) == name; }
        if i :| 0 <= i < |aliases| && Casefold(aliases[i]) == name && i < |init| { assert Casefold(init[i]) == name; }
      }
    }
  }

  /** `i` is the last metric that lists `name`. */
  predicate LastLister(view: seq<NodeView>, name: string, i: int) {
    && 0 <= i < |view|
    && Lists(view[i], name)
    && forall j :: i < j < |view| ==> !Lists(view[j], name)
  }

  /** Position of the last metric that lists `name`, or -1. */
  function LastListing(view: seq<NodeView>, name: string): (i: int)
    ensures -1 <= i < |view|
    ensures i >= 0 ==> Lists(view[i], name)
    ensures forall j :: i < j < |view| ==> !Lists(view[j], name)
  {
    if view == [] then -1
    else if Lists(view[|view| - 1], name) then |view| - 1
    else LastListing(view[..|view| - 1], name)
  }

  lemma {:induction false} IndexEntry(view: seq<NodeView>, name: string)
    ensures name in AliasIndex(view) <==> LastListing(view, name) >= 0
    ensures name in AliasIndex(view) ==> AliasIndex(view)[name] == MetricKeyOf(view[LastListing(view, name)])
  {
    if view != [] {
      var init, v := view[..|view| - 1], view[|view| - 1];
      IndexEntry(init, name);
      AddAliasesEntry(AliasIndex(init), AliasesOf(v.cell), MetricKeyOf(v), name);
    }
  }

  /** The index maps a case-folded name to the last metric, in insertion order, that lists it,
      and contains nothing else. */
  lemma IndexIsLastLister(view: seq<NodeView>, name: string)
    ensures name in AliasIndex(view) <==> exists i :: 0 <= i < |view| && Lists(view[i], name)
    ensures forall i :: LastLister(view, name, i) ==>
              name in AliasIndex(view) && AliasIndex(view)[name] == MetricKeyOf(view[i])
    ensures name in AliasIndex(view) ==> exists i :: LastLister(view, name, i)
  {
    IndexEntry(view, name);
    var last := LastListing(view, name);
    if last >= 0 { assert LastLister(view, name, last); }
    forall i | LastLister(view, name, i) ensures i == last {}
  }

  /** Views that agree about one name have the same index entry for it. */
  lemma {:induction false} SameEntry(v: seq<NodeView>, w: seq<NodeView>, name: string)
    requires |v| == |w|
    requires forall i :: 0 <= i < |v| ==>
               (Lists(v[i], name) <==> Lists(w[i], name)) && MetricKeyOf(v[i]) == MetricKeyOf(w[i])
    ensures name in AliasIndex(v) <==> name in AliasIndex(w)
    ensures name in AliasIndex(v) ==> AliasIndex(v)[name] == AliasIndex(w)[name]
  {
    if v != [] {
      var n := |v| - 1;
      SameEntry(v[..n], w[..n], name);
      AddAliasesEntry(AliasIndex(v[..n]), AliasesOf(v[n].cell), MetricKeyOf(v[n]), name);
      AddAliasesEntry(AliasIndex(w[..n]), AliasesOf(w[n].cell), MetricKeyOf(w[n]), name);
    }
  }

  function Replaced(view: seq<NodeView>, n: NodeId, cell: Cell): seq<NodeView> {
    seq(|view|, i requires 0 <= i < |view| => if view[i].id == n then NodeView(n, cell) else view[i])
  }

  lemma {:induction false} NodesInReplaced(cells: map<NodeId, Cell>, order: seq<NodeId>, base: string, n: NodeId,
                                           cell: Cell)
    requires n in cells
    ensures NodesIn(cells[n := cell], order, base) == Replaced(NodesIn(cells, order, base), n, cell)
  {
    if order != [] { NodesInReplaced(cells, order[..|order| - 1], base, n, cell); }
  }

  lemma {:induction false} NodesInOutside(cells: map<NodeId, Cell>, order: seq<NodeId>, base: string, n: NodeId,
                                          cell: Cell)
    requires n !in order
    ensures NodesIn(cells[n := cell], order, base) == NodesIn(cells, order, base)
  {
    if order != [] { NodesInOutside(cells, order[..|order| - 1], base, n, cell); }
  }

  /** Upserting a metric changes its entry in place, or appends one. */
  lemma MetricUpsertView(g: Graph, metricKey: string, delta: Cell)
    ensures var n := Metric(metricKey);
            var w := Write(NodeRef(n), delta);
            var cell := Merge(At(g, w.ref), delta);
            MetricView(Apply(g, w)) == if Present(g, w.ref) then Replaced(MetricView(g), n, cell)
                                                           else MetricView(g) + [NodeView(n, cell)]
  {
    var n := Metric(metricKey);
    var cell := Merge(At(g, NodeRef(n)), delta);
    var order := g.nodes.order;
    if n in g.nodes.cells {
      NodesInReplaced(g.nodes.cells, order, "Metric", n, cell);
    } else {
      NodesInOutside(g.nodes.cells, order, "Metric", n, cell);
      assert (order + [n])[..|order + [n]| - 1] == order;
    }
  }

  lemma ListedAppend(aliases: seq<string>, alias: string, name: string)
    ensures ListedIn(aliases + [alias], name) <==> ListedIn(aliases, name) || Casefold(alias) == name
  {
    var all := aliases + [alias];
    if i :| 0 <= i < |aliases| && Casefold(aliases[i]) == name { assert Casefold(all[i]) == name; }
    if Casefold(alias) == name { assert Casefold(all[|aliases|]) == name; }
    if i :| 0 <= i < |all| && Casefold(all[i]) == name && i < |aliases| { assert Casefold(aliases[i]) == name; }
  }

  /** The cell of a metric after it has been taught `alias`. */
  function TaughtCell(g: Graph, metricKey: string, alias: string): Cell {
    Merge(At(g, NodeRef(Metric(metricKey))), TaughtDelta(g, metricKey, alias))
  }

  lemma TaughtLists(g: Graph, metricKey: string, alias: string, name: string)
    ensures var taught := NodeView(Metric(metricKey), TaughtCell(g, metricKey, alias));
            && (Lists(taught, name) <==>
                (Casefold(alias) == name
                 || (Present(g, NodeRef(Metric(metricKey)))
                     && Lists(NodeView(Metric(metricKey), At(g, NodeRef(Metric(metricKey)))), name))))
            && MetricKeyOf(taught) == MetricKeyOf(NodeView(Metric(metricKey), At(g, NodeRef(Metric(metricKey)))))
  {
    var r := NodeRef(Metric(metricKey));
    var current := StoredAliases(g, metricKey);
    ListedAppend(current, alias, name);
    if alias in current {
      var i :| 0 <= i < |current| && current[i] == alias;
      assert Casefold(alias) == name ==> Casefold(current[i]) == name;
    }
  }

  /** Teaching an alias changes the index at that name only, and puts the name into it. */
  lemma LearnEffect(g: Graph, metricKey: string, alias: string)
    ensures var before, after := Index(g), Index(LearnAlias(g, metricKey, alias));
            && after.Keys == before.Keys + {Casefold(alias)}
            && (forall name :: name in before && name != Casefold(alias) ==> after[name] == before[name])
  {
    forall name { LearnEntry(g, metricKey, alias, name); }
  }

  lemma ViewCells(g: Graph, v: NodeView)
    requires v in MetricView(g)
    ensures v.id.Metric? && Find(g, NodeRef(v.id)) == Some(v.cell)
  {
    NodesByLabelMembers(g, "Metric", v);
  }

  lemma LearnEntry(g: Graph, metricKey: string, alias: string, name: string)
    ensures var before, after := Index(g), Index(LearnAlias(g, metricKey, alias));
            && (name in after <==> name in before || name == Casefold(alias))
            && (name in before && name != Casefold(alias) ==> after[name] == before[name])
  {
    TaughtView(g, metricKey, alias);
    if Present(g, NodeRef(Metric(metricKey))) {
      ReplacedEntry(g, metricKey, alias, name);
    } else {
      TaughtLists(g, metricKey, alias, name);
      AppendedEntry(MetricView(g), NodeView(Metric(metricKey), TaughtCell(g, metricKey, alias)), name);
    }
  }

  lemma TaughtView(g: Graph, metricKey: string, alias: string)
    ensures var n, cell := Metric(metricKey), TaughtCell(g, metricKey, alias);
            MetricView(LearnAlias(g, metricKey, alias))
              == if Present(g, NodeRef(n)) then Replaced(MetricView(g), n, cell)
                 else MetricView(g) + [NodeView(n, cell)]
  {
    MetricUpsertView(g, metricKey, TaughtDelta(g, metricKey, alias));
  }

  lemma AppendedEntry(view: seq<NodeView>, v: NodeView, name: string)
    ensures name in AliasIndex(view + [v]) <==> name in AliasIndex(view) || Lists(v, name)
    ensures name in AliasIndex(view) && !Lists(v, name) ==> AliasIndex(view + [v])[name] == AliasIndex(view)[name]
  {
    assert (view + [v])[..|view + [v]| - 1] == view;
    AddAliasesEntry(AliasIndex(view), AliasesOf(v.cell), MetricKeyOf(v), name);
  }

  lemma ReplacedEntry(g: Graph, metricKey: string, alias: string, name: string)
    requires Present(g, NodeRef(Metric(metricKey)))
    ensures var before := Index(g);
            var after := AliasIndex(Replaced(MetricView(g), Metric(metricKey), TaughtCell(g, metricKey, alias)));
            && (name in after <==> name in before || name == Casefold(alias))
            && (name in before && name != Casefold(alias) ==> after[name] == before[name])
  {
    var n, cell, view := Metric(metricKey), TaughtCell(g, metricKey, alias), MetricView(g);
    var view' := Replaced(view, n, cell);
    TaughtLists(g, metricKey, alias, name);
    if name == Casefold(alias) {
      NodesByLabelMembers(g, "Metric", NodeView(n, At(g, NodeRef(n))));
      var i :| 0 <= i < |view| && view[i].id == n;
      assert Lists(view'[i], name);
      IndexEntry(view', name);
    } else {
      forall i | 0 <= i < |view|
        ensures (Lists(view[i], name) <==> Lists(view'[i], name)) && MetricKeyOf(view[i]) == MetricKeyOf(view'[i])
      {
        ViewCells(g, view[i]);
      }
      SameEntry(view, view', name);
    }
  }

  /** A write leaves the aliases of every metric but its target's. */
  lemma StoredAfter(g: Graph, w: Write, metricKey: string)
    ensures StoredAliases(Apply(g, w), metricKey)
         == if w.ref == NodeRef(Metric(metricKey)) then AliasesOf(Merge(At(g, w.ref), w.delta))
           else StoredAliases(g, metricKey)
  {
    FindAfter(g, w, NodeRef(Metric(metricKey)));
  }

  lemma MergedAliases(base: Cell, delta: Cell)
    ensures AliasesOf(Merge(base, delta)) == if "aliases" in delta.props then AliasesOf(delta) else AliasesOf(base)
  {
  }

  lemma LearnedStored(g: Graph, metricKey: string, alias: string, k: string)
    ensures StoredAliases(LearnAlias(g, metricKey, alias), k)
         == if k == metricKey then LearnedAliases(g, metricKey, alias) else StoredAliases(g, k)
  {
    var delta := TaughtDelta(g, metricKey, alias);
    StoredAfter(g, Write(NodeRef(Metric(metricKey)), delta), k);
    MergedAliases(At(g, NodeRef(Metric(k))), delta);
  }

  lemma AbsorbedWrite(g: Graph, w: Write)
    ensures Apply(Apply(g, w), w) == Apply(g, w)
  {
    Absorb(g, [w], [w]);
    ApplyOne(g, w);
    ApplyOne(Apply(g, w), w);
  }

  lemma LearnSettles(g: Graph, metricKey: string, alias: string)
    ensures LearnedAliases(LearnAlias(g, metricKey, alias), metricKey, alias) == LearnedAliases(g, metricKey, alias)
    ensures LearnWrite(LearnAlias(g, metricKey, alias), metricKey, alias) == LearnWrite(g, metricKey, alias)
  {
    LearnedStored(g, metricKey, alias, metricKey);
  }

  /** Teaching twice is teaching once, insertion orders included. */
  lemma LearnTwice(g: Graph, metricKey: string, alias: string)
    ensures LearnAlias(LearnAlias(g, metricKey, alias), metricKey, alias) == LearnAlias(g, metricKey, alias)
  {
    LearnSettles(g, metricKey, alias);
    AbsorbedWrite(g, LearnWrite(g, metricKey, alias));
  }

  lemma LearnKeepsKeys(g: Graph, metricKey: string, alias: string)
    requires Keyed(g)
    ensures Keyed(LearnAlias(g, metricKey, alias))
  {
    TaughtLists(g, metricKey, alias, "");
  }

  /** After teaching, the name belongs to the taught metric exactly when no later-inserted
      metric lists it; in particular when no metric listed it before. */
  lemma LearnOwner(g: Graph, metricKey: string, alias: string)
    requires Keyed(g)
    ensures var g' := LearnAlias(g, metricKey, alias);
            var view := MetricView(g');
            var name := Casefold(alias);
            && name in Index(g')
            && (Index(g')[name] == metricKey <==>
                forall i, j :: 0 <= i < j < |view| && view[i].id == Metric(metricKey) ==> !Lists(view[j], name))
            && (name !in Index(g) ==> Index(g')[name] == metricKey)
  {
    var g' := LearnAlias(g, metricKey, alias);
    var view := MetricView(g');
    var k := TaughtPosition(g, metricKey, alias);
    LearnKeepsKeys(g, metricKey, alias);
    KeyedEntries(g');
    DistinctIds(g', view);
    OwnerIsLast(view, Casefold(alias), k);
    assert OwnKey(view[k]);
    assert forall i :: 0 <= i < |view| && view[i].id == Metric(metricKey) ==> i == k;
    if Casefold(alias) !in Index(g) {
      LearnNew(g, metricKey, alias);
      StoredKeyKeyed(g, metricKey);
    }
  }

  predicate OwnKey(v: NodeView) { v.id == Metric(MetricKeyOf(v)) }

  lemma KeyedEntries(g: Graph)
    requires Keyed(g)
    ensures forall i :: 0 <= i < |MetricView(g)| ==> OwnKey(MetricView(g)[i])
  {
    forall i | 0 <= i < |MetricView(g)| ensures OwnKey(MetricView(g)[i]) { ViewCells(g, MetricView(g)[i]); }
  }

  lemma DistinctOwnKeys(view: seq<NodeView>, i: nat, j: nat)
    requires DistinctNodes(view) && i < j < |view| && OwnKey(view[i]) && OwnKey(view[j])
    ensures MetricKeyOf(view[i]) != MetricKeyOf(view[j])
  {
    assert view[i].id != view[j].id;
  }

  lemma LastAtLeast(view: seq<NodeView>, name: string, k: nat)
    requires k < |view| && Lists(view[k], name)
    ensures k <= LastListing(view, name)
    ensures k == LastListing(view, name) <==> forall j :: k < j < |view| ==> !Lists(view[j], name)
  {
  }

  /** Among metrics with their own keys, a lister owns the name exactly when no later one lists
      it. */
  lemma OwnerIsLast(view: seq<NodeView>, name: string, k: nat)
    requires DistinctNodes(view) && forall i :: 0 <= i < |view| ==> OwnKey(view[i])
    requires k < |view| && Lists(view[k], name)
    ensures name in AliasIndex(view)
    ensures AliasIndex(view)[name] == MetricKeyOf(view[k]) <==> forall j :: k < j < |view| ==> !Lists(view[j], name)
  {
    LastAtLeast(view, name, k);
    IndexEntry(view, name);
    if k < LastListing(view, name) { DistinctOwnKeys(view, k, LastListing(view, name)); }
  }

  /** The key under which a metric is, or would be, indexed. */
  function StoredKey(g: Graph, metricKey: string): string {
    MetricKeyOf(NodeView(Metric(metricKey), At(g, NodeRef(Metric(metricKey)))))
  }

  lemma StoredKeyKeyed(g: Graph, metricKey: string)
    requires Keyed(g)
    ensures StoredKey(g, metricKey) == metricKey
  {
  }

  /** A name nobody listed belongs to the taught metric, under the key it is stored with. */
  lemma LearnNew(g: Graph, metricKey: string, alias: string)
    requires Casefold(alias) !in Index(g)
    ensures var after := Index(LearnAlias(g, metricKey, alias));
            Casefold(alias) in after && after[Casefold(alias)] == StoredKey(g, metricKey)
  {
    var g', name := LearnAlias(g, metricKey, alias), Casefold(alias);
    var view := MetricView(g');
    LearnEntry(g, metricKey, alias, name);
    IndexEntry(view, name);
    var last := LastListing(view, name);
    SoleLister(g, metricKey, alias, last);
    ViewCells(g', view[last]);
    assert view[last].cell == TaughtCell(g, metricKey, alias) by {
      FindAfter(g, LearnWrite(g, metricKey, alias), NodeRef(Metric(metricKey)));
    }
    TaughtLists(g, metricKey, alias, name);
  }

  lemma TaughtPosition(g: Graph, metricKey: string, alias: string) returns (k: nat)
    ensures var view := MetricView(LearnAlias(g, metricKey, alias));
            k < |view| && view[k].id == Metric(metricKey) && Lists(view[k], Casefold(alias))
  {
    var g' := LearnAlias(g, metricKey, alias);
    var taught := NodeView(Metric(metricKey), TaughtCell(g, metricKey, alias));
    TaughtLists(g, metricKey, alias, Casefold(alias));
    NodesByLabelMembers(g', "Metric", taught);
    k :| k < |MetricView(g')| && MetricView(g')[k] == taught;
  }

  /** A metric other than the taught one lists what it listed before. */
  lemma OtherListed(g: Graph, metricKey: string, alias: string, v: NodeView, name: string)
    requires v in MetricView(LearnAlias(g, metricKey, alias)) && v.id != Metric(metricKey) && Lists(v, name)
    ensures name in Index(g)
  {
    ViewCells(LearnAlias(g, metricKey, alias), v);
    FindAfter(g, LearnWrite(g, metricKey, alias), NodeRef(v.id));
    NodesByLabelMembers(g, "Metric", v);
    var view := MetricView(g);
    var i :| 0 <= i < |view| && view[i] == v;
    assert Lists(view[i], name);
    IndexEntry(view, name);
  }

  lemma SoleLister(g: Graph, metricKey: string, alias: string, i: nat)
    requires Casefold(alias) !in Index(g)
    requires i < |MetricView(LearnAlias(g, metricKey, alias))|
    requires Lists(MetricView(LearnAlias(g, metricKey, alias))[i], Casefold(alias))
    ensures MetricView(LearnAlias(g, metricKey, alias))[i].id == Metric(metricKey)
  {
    var v := MetricView(LearnAlias(g, metricKey, alias))[i];
    if v.id != Metric(metricKey) { OtherListed(g, metricKey, alias, v, Casefold(alias)); }
  }

  predicate DistinctNodes(view: seq<NodeView>) {
    forall i, j :: 0 <= i < j < |view| ==> view[i].id != view[j].id
  }

  lemma {:induction false} NodesInDistinct(cells: map<NodeId, Cell>, order: seq<NodeId>, base: string)
    requires forall i, j :: 0 <= i < j < |order| ==> order[i] != order[j]
    ensures DistinctNodes(NodesIn(cells, order, base))
  {
    if order != [] {
      var init := order[..|order| - 1];
      NodesInDistinct(cells, init, base);
      forall v | v in NodesIn(cells, init, base) ensures v.id in init {
        NodesInMembers(cells, init, base, v);
      }
    }
  }

  lemma DistinctIds(g: Graph, view: seq<NodeView>)
    requires view == MetricView(g)
    ensures DistinctNodes(view)
  {
    forall i, j | 0 <= i < j < |g.nodes.order| ensures g.nodes.order[i] != g.nodes.order[j] {
      NoRepeats(g.nodes, i, j);
    }
    NodesInDistinct(g.nodes.cells, g.nodes.order, "Metric");
  }
}
