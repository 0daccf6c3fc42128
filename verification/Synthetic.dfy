/** The reference connector: item ids encode what they name, and the parsers decode them. */
module Synthetic {
  import opened Wrappers
  import opened PyStrings
  import opened Graphs
  import opened Client
  import opened WriteLaws
  import opened Ir
  import opened LoadLaws
  import opened LoadValues
  import opened LoadReads
  import opened Resolvers
  import opened Checkpoints
  import opened Ingest

  datatype TableKey = TableKey(system: string, table: string)

  /** What the stub lists: the keys of two dictionaries, in order. */
  datatype Api = Api(tables: seq<TableKey>, documents: seq<string>)

  /** Encoding, as `discover` writes it. */
  function RowsId(t: TableKey): string { "rows" + [':'] + (t.system + ['.'] + t.table) }

  function ProseId(uri: string): string { "prose" + [':'] + uri }

  function RowsItem(sourceRef: string, t: TableKey): WorkItem {
    WorkItem(RowsId(t), sourceRef, "rows", map["system" := t.system, "table" := t.table])
  }

  function ProseItem(sourceRef: string, uri: string): WorkItem {
    WorkItem(ProseId(uri), sourceRef, "prose", map["uri" := uri])
  }

  function RowsItems(sourceRef: string, tables: seq<TableKey>): seq<WorkItem> {
    seq(|tables|, i requires 0 <= i < |tables| => RowsItem(sourceRef, tables[i]))
  }

  function ProseItems(sourceRef: string, documents: seq<string>): seq<WorkItem> {
    seq(|documents|, i requires 0 <= i < |documents| => ProseItem(sourceRef, documents[i]))
  }

  function Discover(sourceRef: string, api: Api): seq<WorkItem> {
    RowsItems(sourceRef, api.tables) + ProseItems(sourceRef, api.documents)
  }

  // ---- Parsing -----------------------------------------------------------------------------

  /** A column of the payload, with the type and samples inferred from its rows. */
  datatype Field = Field(name: string, dtype: Option<string>, samples: seq<string>)

  datatype Prose = Prose(title: Option<string>, text: string, asOf: Option<string>)

  function FieldColumn(t: TableKey, f: Field): ObservedColumn {
    ObservedColumn(t.system, t.table, f.name, f.dtype, f.samples, false)
  }

  /** One entity that owns the columns of its table. */
  function RowsBundle(prov: Provenance, t: TableKey, fields: seq<Field>): ParsedBundle {
    var columns := seq(|fields|, i requires 0 <= i < |fields| => FieldColumn(t, fields[i]));
    var entity := ObservedEntity(t.system + ['.'] + t.table, ["Widget"],
                                 map["system" := Text(t.system), "table" := Text(t.table)], columns);
    ParsedBundle(prov, [], [], [entity], [])
  }

  function ProseBundle(prov: Provenance, uri: string, p: Prose): ParsedBundle {
    ParsedBundle(prov, [], [ObservedDocument(uri, p.title, p.text, p.asOf, [], [])], [], [])
  }

  function ParseRows(itemId: string, prov: Provenance, fields: seq<Field>): Result<ParsedBundle> {
    match After(itemId, ':')
    case None => Err(MalformedId)
    case Some(reference) =>
      match After(reference, '.')
      case None => Err(MalformedId)
      case Some(table) => Ok(RowsBundle(prov, TableKey(Before(reference, '.'), table), fields))
  }

  function ParseProse(itemId: string, prov: Provenance, p: Prose): Result<ParsedBundle> {
    match After(itemId, ':')
    case None => Err(MalformedId)
    case Some(uri) => Ok(ProseBundle(prov, uri, p))
  }

  // ---- Round trips -------------------------------------------------------------------------

  /** The part of an item id after its kind, whatever it contains. */
  lemma IdBody(kind: string, body: string)
    requires ':' !in kind
    ensures After(kind + [':'] + body, ':') == Some(body)
  {
    SplitJoined(kind, ':', body);
  }

  /** The document parser recovers any uri. */
  lemma ProseRoundTrip(prov: Provenance, uri: string, p: Prose)
    ensures ParseProse(ProseId(uri), prov, p) == Ok(ProseBundle(prov, uri, p))
  {
    IdBody("prose", uri);
  }

  /** The table a rows id is read as. */
  function TableRead(t: TableKey): TableKey {
    var reference := t.system + ['.'] + t.table;
    TableKey(Before(reference, '.'), match After(reference, '.') case Some(table) => table case None => "")
  }

  lemma ReadBack(t: TableKey)
    ensures TableRead(t) == t <==> '.' !in t.system
  {
    SplitJoined(t.system, '.', t.table);
  }

  /** The rows parser accepts every discovered id, and recovers the system and the table
      exactly when the system name contains no dot. The table name is free. */
  lemma RowsRoundTrip(prov: Provenance, t: TableKey, fields: seq<Field>)
    ensures ParseRows(RowsId(t), prov, fields) == Ok(RowsBundle(prov, TableRead(t), fields))
    ensures ParseRows(RowsId(t), prov, fields) == Ok(RowsBundle(prov, t, fields)) <==> '.' !in t.system
  {
    IdBody("rows", t.system + ['.'] + t.table);
    SplitJoined(t.system, '.', t.table);
    ReadBack(t);
    BundleNamesTable(prov, TableRead(t), t, fields);
  }

  lemma BundleNamesTable(prov: Provenance, s: TableKey, t: TableKey, fields: seq<Field>)
    ensures RowsBundle(prov, s, fields) == RowsBundle(prov, t, fields) <==> s == t
  {
    if s != t {
      var a := RowsBundle(prov, s, fields).entities[0].attributes;
      var b := RowsBundle(prov, t, fields).entities[0].attributes;
      assert a["system"] == Text(s.system) && b["system"] == Text(t.system);
      assert a["table"] == Text(s.table) && b["table"] == Text(t.table);
    }
  }

  // ---- Discovery, spelled out --------------------------------------------------------------

  /** Tables come before documents, each as an item of the source under an id that names it. */
  lemma DiscoverSpelled(sourceRef: string, api: Api, i: nat)
    requires i < |api.tables| + |api.documents|
    ensures var items, n := Discover(sourceRef, api), |api.tables|;
            && |items| == n + |api.documents|
            && items[i].sourceRef == sourceRef
            && (i < n ==>
                  && items[i].artifactType == "rows"
                  && items[i].itemId == "rows:" + api.tables[i].system + "." + api.tables[i].table
                  && items[i].metadata == map["system" := api.tables[i].system, "table" := api.tables[i].table])
            && (i >= n ==>
                  && items[i].artifactType == "prose" && items[i].itemId == "prose:" + api.documents[i - n]
                  && items[i].metadata == map["uri" := api.documents[i - n]])
  {
    if i < |api.tables| {
      var t := api.tables[i];
      assert "rows" + [':'] + (t.system + ['.'] + t.table) == "rows:" + t.system + "." + t.table;
    }
  }

  // ---- Loading what was parsed -------------------------------------------------------------

  /** A fetched table becomes one entity, named after it, that carries its system and table. */
  lemma RowsEntity(allow: Allow, g: Graph, prov: Provenance, t: TableKey, fields: seq<Field>)
    requires '.' !in t.system
    ensures var parsed := ParseRows(RowsId(t), prov, fields);
            && parsed.Ok?
            && var after, n := Loaded(allow, g, parsed.value), Entity(t.system + "." + t.table);
            && Read(after, n, "system") == Some(Text(t.system)) && Read(after, n, "table") == Some(Text(t.table))
            && n in after.nodes.cells
            && ("Widget" in allow.subtypes ==> "Widget" in after.nodes.cells[n].labels)
  {
    var uid, b := t.system + "." + t.table, RowsBundle(prov, t, fields);
    RowsRoundTrip(prov, t, fields);
    assert t.system + ['.'] + t.table == uid;
    var e := b.entities[0];
    assert b.entities[..0] == [] && e.uid == uid;
    EntityAttributes(allow, g, b, uid, "system");
    EntityAttributes(allow, g, b, uid, "table");
    assert NamesEntity(b.entities, NodeRef(Entity(uid)));
    EntityLabelsExactly(allow, g, b, uid);
    if "Widget" in allow.subtypes { assert "Widget" in PickedLabels(allow, e); }
  }

  lemma OwnColumns(b: ParsedBundle)
    requires b.columns == [] && |b.entities| == 1
    ensures b.IterColumns() == b.entities[0].columns
  {
    assert b.entities[..0] == [] && OwnedColumns([]) == [];
    assert OwnedColumns(b.entities) == [] + b.entities[0].columns;
  }

  lemma LastObservedAt(columns: seq<ObservedColumn>, i: nat)
    requires i < |columns| && forall j :: i < j < |columns| ==> KeyOf(columns[j]) != KeyOf(columns[i])
    ensures LastObserved(columns, KeyOf(columns[i])) == i
  {
  }

  lemma LastField(prov: Provenance, t: TableKey, fields: seq<Field>, i: nat)
    requires i < |fields| && forall j :: i < j < |fields| ==> fields[j].name != fields[i].name
    ensures var columns := RowsBundle(prov, t, fields).entities[0].columns;
            LastObserved(columns, KeyOf(FieldColumn(t, fields[i]))) == i && columns[i] == FieldColumn(t, fields[i])
  {
    var columns := RowsBundle(prov, t, fields).entities[0].columns;
    LastObservedAt(columns, i);
  }

  /** And each of its fields a column of that system and table, with the type and samples of the
      payload and no dictionary. */
  lemma RowsColumns(allow: Allow, g: Graph, prov: Provenance, t: TableKey, fields: seq<Field>, i: nat)
    requires '.' !in t.system && i < |fields| && forall j :: i < j < |fields| ==> fields[j].name != fields[i].name
    ensures var parsed := ParseRows(RowsId(t), prov, fields);
            && parsed.Ok?
            && var after, n := Loaded(allow, g, parsed.value), Column(t.system, t.table, fields[i].name);
            && Read(after, n, "sample_values") == Some(Texts(fields[i].samples))
            && Read(after, n, "has_dictionary") == Some(Flag(false))
            && (fields[i].dtype.Some? ==> Read(after, n, "dtype") == Some(Text(fields[i].dtype.value)))
  {
    var b := RowsBundle(prov, t, fields);
    RowsRoundTrip(prov, t, fields);
    OwnColumns(b);
    LastField(prov, t, fields, i);
    ColumnShowsLast(allow, g, b, KeyOf(FieldColumn(t, fields[i])));
  }

  /** A fetched document is stored under the uri it was discovered by. */
  lemma ProseDocument(allow: Allow, g: Graph, prov: Provenance, uri: string, p: Prose)
    ensures var parsed := ParseProse(ProseId(uri), prov, p);
            && parsed.Ok?
            && var after, n := Loaded(allow, g, parsed.value), Document(uri);
            && Read(after, n, "text") == Some(Text(p.text))
            && (p.title.Some? ==> Read(after, n, "title") == Some(Text(p.title.value)))
            && (p.asOf.Some? ==> Read(after, n, "as_of") == Some(Text(p.asOf.value)))
  {
    var b := ProseBundle(prov, uri, p);
    ProseRoundTrip(prov, uri, p);
    assert LastRecorded(b.documents, uri) == 0;
    DocumentTellsLast(allow, g, b, uri);
  }

  // ---- Injectivity -------------------------------------------------------------------------

  lemma SameRowsId(s: TableKey, t: TableKey)
    ensures RowsId(s) == RowsId(t) <==> s.system + ['.'] + s.table == t.system + ['.'] + t.table
  {
    IdBody("rows", s.system + ['.'] + s.table);
    IdBody("rows", t.system + ['.'] + t.table);
  }

  /** A table's id spells the table it is read as. */
  lemma ReadSpellsId(t: TableKey)
    ensures TableRead(t).system + ['.'] + TableRead(t).table == t.system + ['.'] + t.table
  {
    SplitJoined(t.system, '.', t.table);
    var whole := t.system + ['.'] + t.table;
    var j := FirstIndex(whole, '.');
    assert whole == whole[..j] + [whole[j]] + whole[j + 1..];
  }

  /** Two tables share an id if and only if they are read as the same table. */
  lemma RowsIdReads(s: TableKey, t: TableKey)
    ensures RowsId(s) == RowsId(t) <==> TableRead(s) == TableRead(t)
  {
    SameRowsId(s, t);
    ReadSpellsId(s);
    ReadSpellsId(t);
  }

  /** A table whose system name contains a dot always has a namesake with the same id. */
  lemma DottedCollides(t: TableKey)
    requires '.' in t.system
    ensures TableRead(t) != t && RowsId(TableRead(t)) == RowsId(t)
  {
    ReadBack(t);
    ReadSpellsId(t);
    SameRowsId(TableRead(t), t);
  }

  lemma KindsDiffer(t: TableKey, uri: string)
    ensures RowsId(t) != ProseId(uri)
  {
    assert RowsId(t)[0] == 'r' && ProseId(uri)[0] == 'p';
  }

  lemma SameProseId(u: string, v: string)
    requires ProseId(u) == ProseId(v)
    ensures u == v
  {
    IdBody("prose", u);
    IdBody("prose", v);
  }

  predicate Distinct<T(==)>(xs: seq<T>) {
    forall i, j :: 0 <= i < j < |xs| ==> xs[i] != xs[j]
  }

  predicate DistinctIds(items: seq<WorkItem>) {
    forall i, j :: 0 <= i < j < |items| ==> items[i].itemId != items[j].itemId
  }

  /** No two listed tables are read as the same one. */
  predicate DistinctReads(tables: seq<TableKey>) {
    forall i, j :: 0 <= i < j < |tables| ==> TableRead(tables[i]) != TableRead(tables[j])
  }

  /** The discovered ids are distinct if and only if no two tables are read as the same one. */
  lemma DiscoveredDistinctExactly(sourceRef: string, api: Api)
    requires Distinct(api.documents)
    ensures DistinctIds(Discover(sourceRef, api)) <==> DistinctReads(api.tables)
  {
    var items, n := Discover(sourceRef, api), |api.tables|;
    forall i, j | 0 <= i < j < |items|
      ensures items[i].itemId == items[j].itemId <==> j < n && TableRead(api.tables[i]) == TableRead(api.tables[j])
    {
      if j < n {
        RowsIdReads(api.tables[i], api.tables[j]);
      } else if i < n {
        KindsDiffer(api.tables[i], api.documents[j - n]);
      } else if items[i].itemId == items[j].itemId {
        SameProseId(api.documents[i - n], api.documents[j - n]);
      }
    }
    if DistinctIds(items) {
      forall i, j | 0 <= i < j < n ensures TableRead(api.tables[i]) != TableRead(api.tables[j]) {
        assert items[i].itemId != items[j].itemId;
      }
    }
  }

  /** In particular, when no system name contains a dot. */
  lemma DiscoveredDistinct(sourceRef: string, api: Api)
    requires Distinct(api.tables) && Distinct(api.documents)
    requires forall t :: t in api.tables ==> '.' !in t.system
    ensures DistinctReads(api.tables) && DistinctIds(Discover(sourceRef, api))
  {
    forall i, j | 0 <= i < j < |api.tables| ensures TableRead(api.tables[i]) != TableRead(api.tables[j]) {
      assert api.tables[i] in api.tables && api.tables[j] in api.tables;
      ReadBack(api.tables[i]);
      ReadBack(api.tables[j]);
    }
    DiscoveredDistinctExactly(sourceRef, api);
  }

  lemma {:induction false} KeysAreListed(items: seq<WorkItem>, k: ItemKey)
    ensures k in Keys(items) <==> exists i :: 0 <= i < |items| && items[i].Key() == k
  {
    if items != [] {
      var n := |items| - 1;
      KeysAreListed(items[..n], k);
      assert forall i :: 0 <= i < n ==> items[..n][i] == items[i];
    }
  }

  predicate OneSource(items: seq<WorkItem>, sourceRef: string) {
    forall i :: 0 <= i < |items| ==> items[i].sourceRef == sourceRef
  }

  /** There are as many keys as items exactly when the ids are distinct. */
  lemma {:induction false} DistinctKeysCount(items: seq<WorkItem>, sourceRef: string)
    requires OneSource(items, sourceRef)
    ensures |Keys(items)| <= |items| && (|Keys(items)| == |items| <==> DistinctIds(items))
  {
    if items != [] {
      var n := |items| - 1;
      var init, key := items[..n], items[n].Key();
      assert forall i :: 0 <= i < n ==> init[i] == items[i];
      DistinctKeysCount(init, sourceRef);
      KeysAreListed(init, key);
      if key in Keys(init) {
        var i :| 0 <= i < n && init[i].Key() == key;
        assert items[i].itemId == items[n].itemId;
        assert Keys(items) == Keys(init);
      } else {
        assert forall i :: 0 <= i < n ==> init[i].Key() != key;
      }
    }
  }

  /** A run that completes on an empty ledger skips nothing if and only if no two tables are
      read as the same one. */
  lemma EmptyLedgerSkipsNone(report: IngestReport, f: Funnel, source: Source, d: Durable, times: Times,
                             sourceRef: string, api: Api)
    requires source.items == Discover(sourceRef, api) && d.done == {} && Distinct(api.documents)
    requires Reports(report, f, source, d, |source.items|, times)
    ensures report.itemsSkipped == 0 <==> DistinctReads(api.tables)
    ensures report.itemsSkipped == 0 ==> report.itemsIngested == |api.tables| + |api.documents|
  {
    assert OneSource(source.items, sourceRef);
    DiscoveredDistinctExactly(sourceRef, api);
    DistinctKeysCount(source.items, sourceRef);
    FreshCounts(report, f, source, d, times);
  }

  lemma FreshCounts(report: IngestReport, f: Funnel, source: Source, d: Durable, times: Times)
    requires d.done == {} && Reports(report, f, source, d, |source.items|, times)
    ensures report.itemsIngested + report.itemsSkipped == |source.items|
    ensures report.itemsIngested == |Keys(source.items)|
  {
    RunAccounting(report, f, source, d, times);
    assert Keys(source.items) - d.done == Keys(source.items);
  }

  /** A table listed after its namesake is never ingested: the only pending item is the
      namesake's, and the two differ in the table their metadata names. */
  lemma NamesakeIsSkipped(sourceRef: string, t: TableKey)
    requires '.' in t.system
    ensures var api := Api([TableRead(t), t], []);
            && Distinct(api.tables)
            && Discover(sourceRef, api) == [RowsItem(sourceRef, TableRead(t)), RowsItem(sourceRef, t)]
            && Pending({}, Discover(sourceRef, api)) == [RowsItem(sourceRef, TableRead(t))]
            && RowsItem(sourceRef, t) != RowsItem(sourceRef, TableRead(t))
  {
    DottedCollides(t);
    var items := Discover(sourceRef, Api([TableRead(t), t], []));
    assert items == [RowsItem(sourceRef, TableRead(t)), RowsItem(sourceRef, t)];
    assert RowsItem(sourceRef, t).metadata["table"] == t.table && RowsItem(sourceRef, t).metadata["system"] == t.system;
    assert RowsItem(sourceRef, TableRead(t)).metadata["table"] == TableRead(t).table
        && RowsItem(sourceRef, TableRead(t)).metadata["system"] == TableRead(t).system;
    TwinsPending(items);
  }

  lemma TwinsPending(items: seq<WorkItem>)
    requires |items| == 2 && items[0].Key() == items[1].Key()
    ensures Pending({}, items) == [items[0]]
  {
    var one := items[..1];
    assert one[..0] == [] && one[0] == items[0];
    assert Pending({}, one) == Pending({}, []) + [items[0]];
    assert Keys(one) == Keys([]) + {items[0].Key()};
    assert Pending({}, items) == Pending({}, one) + [];
  }
}
