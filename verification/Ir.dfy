/** The records every connector normalizes into. */
module Ir {
  import opened Wrappers
  import opened Graphs

  datatype Provenance = Provenance(sourceRef: string, fetchedAt: string, connectorVersion: string)

  datatype ObservedColumn = ObservedColumn(
    system: string, table: string, name: string, dtype: Option<string>,
    sampleValues: seq<string>, hasDictionary: bool)

  datatype ObservedDocument = ObservedDocument(
    uri: string, title: Option<string>, text: string, asOf: Option<string>,
    describes: seq<string>, defines: seq<string>)

  datatype ObservedEntity = ObservedEntity(
    uid: string, candidateLabels: seq<string>, attributes: Props, columns: seq<ObservedColumn>)

  datatype ObservedRelation = ObservedRelation(
    subjectUid: string, role: string, objectUid: string, relType: Option<string>)

  datatype ParsedBundle = ParsedBundle(
    provenance: Provenance, columns: seq<ObservedColumn>, documents: seq<ObservedDocument>,
    entities: seq<ObservedEntity>, relations: seq<ObservedRelation>)
  {
    /** The free-standing columns, then those each entity carries. */
    function IterColumns(): seq<ObservedColumn> {
      columns + OwnedColumns(entities)
    }
  }

  function OwnedColumns(entities: seq<ObservedEntity>): seq<ObservedColumn> {
    if entities == [] then [] else
      OwnedColumns(entities[..|entities| - 1]) + entities[|entities| - 1].columns
  }

  datatype ColumnKey = ColumnKey(system: string, table: string, name: string)

  function KeyOf(c: ObservedColumn): ColumnKey { ColumnKey(c.system, c.table, c.name) }
}
