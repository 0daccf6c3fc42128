# A verified model of the metric-ontology core

The repository ingests observed records (documents, columns, entities, relations) into a graph
through upserts, resolves columns to metrics in a three-tier funnel, learns from confirmations,
and rate-limits its fetches. Its central claims are about whole runs: re-running a load
converges, a crash never double-ingests, confirming makes tier-2 volume decay, the limiter keeps
its rate. This project models the code behind those claims. It proves them for every input,
every run and every reachable state where the code keeps them; where it does not, it gives an
input and proves exactly when it does (see "Where the code and its documentation differ").

## How the model is laid out

| file | contents |
|---|---|
| `Wrappers.dfy`, `PyStrings.dfy` | results and errors; case folding, splitting, code-point order |
| `Graphs.dfy` | the graph as a value (insertion order kept), upserts, and their algebra |
| `Store.dfy`, `StrictStore.dfy` | the dictionary-backed store as a class; the store whose edge write needs both endpoints |
| `Confluence.dfy`, `Delivery.dfy`, `Refetch.dfy` | interleaved, crashed and redelivered jobs; the same for whole loads, and for loads fetched again |
| `Client.dfy`, `WriteLaws.dfy` | the client class; what each of its calls leaves for a reader, by property name and by following edges |
| `AliasLaws.dfy`, `Schema.dfy` | the tier-1 index, the write invariant over all runs |
| `Suggest.dfy`, `Resolver.dfy` | ranking and the funnel |
| `WriteBack.dfy`, `TierLaws.dfy` | what confirmations and whole runs do to tier 1, and to every tier |
| `Ir.dfy`, `Pipeline.dfy` | the records; the loader, and the write sequence a bundle compiles to |
| `LoadLaws.dfy`, `LoadValues.dfy`, `OnePass.dfy` | idempotence, exact effect, final values and read-back of a load; when one load into the endpoint-checking store is enough |
| `LoadReads.dfy` | what a load leaves for a reader: attributes, relations, document links, column links |
| `Checkpoint.dfy`, `Ingest.dfy`, `CrashSafety.dfy` | the ledger, the driver, and the crash-and-restart machine |
| `StrictIngest.dfy` | whole ingest runs into the endpoint-checking store, and the links they lose |
| `Buckets.dfy`, `RateLimit.dfy` | the token bucket as a value and as a class with an injected clock |
| `Packs.dfy`, `Synthetic.dfy` | loading and re-loading packs; item ids of the reference connector |

Code that updates state is modelled by classes and methods with loops (`InMemoryGraphStore`,
`GraphClient`, `EscalationQueue`, `Resolver`, `InMemoryCheckpointer`, `TokenBucket`, the loaders
and the driver); each method is proved equal to a function of its inputs and the old state, and
the laws are proved about those functions. A ghost log in the store records the upserts
themselves, so the loaders and the driver are proved to make exactly the compiled upserts, one by
one and in order; that order is what the crash and interleaving theorems are about.

The functions the methods are proved against are themselves pinned by laws in the system's own
terms: names that differ in case alone, the literal namespace, source and id, subject and object,
property names, seconds and tokens.

Most proofs about loads and crashes rest on one observation: merging cells is associative, and a
later cell that sets at least the same labels and properties absorbs an earlier one. A load reads
only Metric nodes and writes none, so given the allow-lists and the alias index a bundle compiles
to a fixed write sequence; re-running a prefix of it, or re-fetching it at another time, changes
nothing that the next whole run does not overwrite.

## Where the code and its documentation differ

- `resolver/funnel.py:15-18` and `README.md:159` say that confirming makes tier-2 volume decay.
  What decays is the number of names not at tier 1 (tiers 0, 2 and 3 together): `WriteBack.Decay`.
  Tier 2 itself can grow, since a confirmed name is a new term that escalated names may resemble:
  `TierLaws.TierTwoCanRise` is an input (confirming `weight_kg` brings `weight_kgs` within reach, for
  any scorer whose ratio of the two clears the threshold), `TierLaws.TierTwoAfterConfirm` gives the
  exact change and `TierLaws.ConfirmTiers` says exactly which columns move. No column ever falls to a
  lower tier (`TierLaws.TiersNeverFall`).
- `packs/loader.py:16-18` says the rule set grows through write-back. A reload
  of a pack overwrites the learned aliases of every metric to which that pack gives aliases:
  `Packs.ReloadForgets` shows the loss, `Packs.LearnedSurvivesReload` says exactly when a learned
  alias stays on its metric and when its name stays at tier 1.
- `ingestion/ir.py:100-102` says unknown candidate labels are rejected; `_pick_subtype`
  (`ingestion/pipeline.py:107-118`) ignores them. The model follows the code
  (`LoadValues.EntityLabelsExactly`).
- `graph/store.py:14` calls re-running any write a no-op, and documents link to entities that are
  written after them. Against the store whose edge write needs both endpoints one load is enough
  exactly when no document describes an entity that the same bundle brings and that is not stored
  yet (`OnePass.OneLoadExactly`, `OnePass.SecondLoadIdle`; `OnePass.OverviewNeedsTwo` is an input
  that needs two); loading one bundle twice in a row is always enough (`LoadLaws.TwoPassLoad`). But
  `run_ingest` never loads a marked item again, so over a whole run a link to an entity that comes
  too late is lost for good: `StrictIngest.StrictIngestExactly` says exactly when, and
  `StrictIngest.EarlyRelationIsLost` is an input.
- `ingestion/pipeline.py:52` calls a load idempotent. The graph and the resolutions are
  (`LoadLaws.LoadTwice`); the escalation queue is not: a second load appends the escalated columns
  again, unless a forbidden relation ends both loads before they resolve anything.
  `TierLaws.SecondLoadQueue` says exactly when the queue is left alone,
  `TierLaws.UnknownColumnQueuedAgain` is an input where it is not.
- A caller's queue that is still empty is falsy and is replaced (`resolver/funnel.py:68-69`,
  `resolver/funnel.py:85`); all queue statements are about `resolver.queue`.
- `docs/SYSTEM_DESIGN.md:222-225` says at-least-once delivery converges. Every delivery in every
  interleaving ends with the same contents if and only if the bundles leave equal values wherever
  two of them set the same property (`Confluence.AgreementIsExact`, `Deliveries.LoadsConvergeExactly`).
  The condition is needed even when the checkpointer drops every redelivery and nothing crashes, so
  that each bundle is loaded exactly once: the order of two workers then decides
  (`Confluence.OnceIsExact`). `Deliveries.OverviewDiverges` is a pair of bundles that diverge so.
  Deliveries that fetch again end alike up to the fetch times on edges if and only if the fetches
  agree but for their times (`Refetch.RefetchIsExact`), as fetches of one content do.
- `ingestion/source.py:45-48` relies on stable, distinct item ids. The discovered ids are distinct
  if and only if no two tables are read as the same one (`Synthetic.DiscoveredDistinctExactly`), as
  when no system name has a dot; a table listed after its namesake is skipped
  (`Synthetic.NamesakeIsSkipped`).
- "A crash never double-ingests" (`ingestion/checkpoint.py:3-5`): an item interrupted before it is
  marked is loaded again; it converges to one load with the last fetch time
  (`CrashSafety.CrashRefinement`). Nor can every restart complete: an item still to be loaded that
  holds a forbidden relation stops every one of them (`CrashSafety.RecoveryIsExact`).

## Model

| member | source | states |
|---|---|---|
| PyStrings.SplitJoined | ingestion/connectors/synthetic.py:137-138 | splitting a joined id once gives the two parts back exactly when the left one has no separator |
| PyStrings.CasefoldIdempotent | graph/client.py:306 | folding an already folded name changes nothing (ASCII letters; see "Left out") |
| PyStrings.CasefoldSpelled | graph/client.py:306 | a folded name has no capital: each became its own small letter, every other character is kept (ASCII letters) |
| PyStrings.CasefoldExactly | graph/client.py:306 | two names fold alike if and only if they agree letter by letter up to case |
| PyStrings.LastPartSplit | graph/client.py:315 | the local part of a key is what follows its first separator, or the whole key without one |
| PyStrings.BeforeIsNamespace | packs/loader.py:91 | the part before the first dot is a given namespace if and only if the namespace has no dot and the key is it, or continues it after a dot |
| PyStrings.AtMostSpelled | resolver/suggest.py:56-57 | a string sorts at or before another exactly when it is a prefix of it or has the smaller character where they first differ |
| Stores.InMemoryGraphStore.constructor | graph/store.py:94-98 | a new store is empty |
| Stores.InMemoryGraphStore.UpsertNode | graph/store.py:106-119 | the new graph is one atomic upsert of the old one, and the log gains exactly that upsert: last write wins per property, labels are unioned, a new key goes last |
| Stores.InMemoryGraphStore.UpsertEdge | graph/store.py:121-141 | the same for an edge, whose role is part of its identity and of its properties |
| Stores.InMemoryGraphStore.GetNode | graph/store.py:143-145 | the stored cell, or nothing |
| Stores.InMemoryGraphStore.FindOutNeighbors | graph/store.py:147-157 | the outgoing edges of one type with stored targets, in insertion order |
| Stores.InMemoryGraphStore.FindNodesByLabel | graph/store.py:159-164 | the nodes of one base label, in insertion order |
| Stores.NodesByLabelMembers | graph/store.py:159-164 | a node is listed if and only if it is stored under that label, with its stored cell |
| Stores.OutNeighborsMembers | graph/store.py:147-157 | a neighbor is listed if and only if such an edge is stored and its target is a stored node |
| Stores.NodesByLabelInOrder | graph/store.py:159-164 | nodes are listed in insertion order, each once |
| Stores.OutNeighborsInOrder | graph/store.py:147-157 | neighbors are listed in the insertion order of their edges, one for each |
| GraphLaws.UpsertedNode | graph/store.py:106-119 | labels are unioned, a property is what the last write set it to, and one that is not mentioned stays as it was, or is the key of a new node |
| GraphLaws.UpsertedEdge | graph/store.py:121-141 | the same for an edge, which begins with its role |
| GraphLaws.UpsertedElsewhere | graph/store.py:106-141 | an upsert changes nothing else, and a new key goes last |
| GraphLaws.IdentityStored | graph/model.py:175-182 | each of the six nodes is filed under its base label and tells its own key, property by property |
| GraphLaws.IdentityIsKey | graph/model.py:175-182 | under one base label, nodes with the same key properties are the same node, and only those |
| GraphLaws.CleanExactly | graph/client.py:28-30 | a value is dropped exactly when it is absent |
| GraphLaws.FindAfterAll | graph/store.py:106-141 | a sequence of upserts acts on each node and edge separately, by the merge of its writes there |
| GraphLaws.NoRepeats | graph/store.py:95-98 | insertion order lists no key twice, whatever is written |
| GraphLaws.Absorb | graph/store.py:12-15 | a write sequence followed by one that sets the same things equals the second alone, insertion orders included |
| GraphLaws.PrefixAbsorb | graph/store.py:12-15 | any prefix of a write sequence followed by a whole run of one that sets the same things equals the whole run alone |
| GraphLaws.Recorded | graph/store.py:106-141 | recording a write sequence leaves the graph of its upserts, and the log shows them one by one, in order |
| StrictStore.TwoPassConvergence | graph/store.py:231-234 | with edge writes that need both endpoints, two passes give the nodes of one permissive pass and exactly its edges with both endpoints; a third pass changes nothing |
| StrictStore.SecondPass | graph/store.py:231-234 | once the nodes exist, an edge write takes effect exactly when both endpoints are stored |
| StrictStore.StrictWrites | graph/store.py:231-234 | an edge write into that store acts exactly when its source and its target are both stored |
| OnePass.OneLoadExactly | graph/store.py:231-234 | one load into the endpoint-checking store leaves the nodes of one permissive load, and exactly its edges with both endpoints, if and only if no document describes an entity that the same bundle brings and that is not stored yet |
| OnePass.SecondLoadIdle | graph/store.py:12-15 | under exactly that condition a second load changes nothing |
| OnePass.OneEdgeExactly | ingestion/pipeline.py:61-66 | edge by edge: after one load an edge is what the permissive load leaves of it, unless it is such a link or lacks an endpoint |
| OnePass.OverviewNeedsTwo | ingestion/pipeline.py:61-79 | one bundle whose link is missing after one load and there after two |
| StrictIngest.StrictIngestExactly | ingestion/pipeline.py:121-140 | a run into the endpoint-checking store leaves the nodes and the ledger of one into the permissive store, and exactly its edges with both endpoints, if and only if no link is lost; a link is lost when it is new, both its entities are there in the end, and each item that asks for it comes before one of them (a document needs its entity before its own item, a relation with it at the latest); running again changes nothing |
| StrictIngest.EarlyRelationIsLost | ingestion/pipeline.py:87-91 | one such run: an item whose relation names the entity of the next item |
| Confluence.DeliveryConfluence | docs/SYSTEM_DESIGN.md:222-225 | every interleaving of atomic upserts of every at-least-once delivery, with crashed attempts, ends with the contents of running each job once, if the jobs agree; the cited claim has no such condition, and AgreementIsExact shows that it needs it |
| Confluence.AgreementIsExact | docs/SYSTEM_DESIGN.md:222-225 | the jobs agree if and only if every at-least-once delivery, in every interleaving, ends with the contents of running each job once (see OnceIsExact for deliveries without repeats) |
| Confluence.OnceIsExact | docs/SYSTEM_DESIGN.md:214-225 | the jobs agree if and only if running each exactly once and uncrashed, in every order of delivery and every interleaving, ends with the contents of running them one after another; so the claim needs agreement under the dedupe of finished jobs too |
| Confluence.RedeliveryIsExact | docs/SYSTEM_DESIGN.md:222-225 | the jobs agree if and only if redelivering any one of them after all have run, to a worker that does run it again, changes nothing |
| Confluence.RedeliveryIsDelivery | docs/SYSTEM_DESIGN.md:222-225 | such a redelivery is an at-least-once delivery in some interleaving, when finished jobs are not dropped |
| Confluence.AttemptsNet | docs/SYSTEM_DESIGN.md:560-561 | failed attempts followed by a whole run have the net effect of the whole run |
| Confluence.AttemptsSpelled | docs/SYSTEM_DESIGN.md:560-561 | each failed attempt makes a first part of the job's upserts, the last attempt makes all |
| Confluence.InterleaveExactly | docs/SYSTEM_DESIGN.md:222-225 | the interleavings are exactly the merges: workers may take turns in any way, and each keeps its own order |
| Deliveries.LoadsConverge | docs/SYSTEM_DESIGN.md:214-225 | workers loading bundles in any interleaving, with crashes and redeliveries, end with the contents of loading them one after another, if the bundles agree |
| Deliveries.LoadsConvergeExactly | docs/SYSTEM_DESIGN.md:214-225 | bundles agree if and only if all their deliveries converge, and if and only if all their deliveries without crashes and repeats do |
| Deliveries.TwoTextsDiverge | docs/SYSTEM_DESIGN.md:214-225 | bundles that record one document with two texts do not agree and do not converge, even when each is loaded exactly once |
| Deliveries.OverviewDiverges | docs/SYSTEM_DESIGN.md:214-225 | two such bundles |
| Refetch.RefetchedLoadsConverge | docs/SYSTEM_DESIGN.md:214-225 | deliveries that fetch again: if the fetches agree but for fetch times, every delivery in every interleaving stores the same nodes, edges, labels and properties but for the fetch times on edges |
| Refetch.RefetchIsExact | docs/SYSTEM_DESIGN.md:214-225 | the fetches agree but for their times if and only if every such delivery in every interleaving ends alike but for the fetch times on edges |
| Refetch.RefetchedTime | ingestion/pipeline.py:56-59 | the fetch time an edge ends with is that of one of the fetches |
| Refetch.RefetchesAgree | ingestion/pipeline.py:56-59 | fetches of one content always agree, whatever their times |
| Deliveries.IndexAtEveryMoment | ingestion/pipeline.py:93-104 | at every moment of such an interleaving the tier-1 index is the one it began with, so the compiled writes are the ones the workers make |
| Client.GraphClient.constructor | graph/client.py:38-44 | a new client permits no subtype and no pack edge type |
| Client.GraphClient.RegisterAllowlists | graph/client.py:52-58 | both allow-lists grow by union |
| Client.GraphClient.UpsertEntity | graph/client.py:66-80 | succeeds exactly when the subtype is absent or allow-listed; a rejected call leaves the graph alone |
| Client.GraphClient.UpsertMetric | graph/client.py:82-102 | one upsert of the metric's fields and attributes, absent values dropped |
| Client.GraphClient.UpsertColumn | graph/client.py:104-123 | one upsert of a column |
| Client.GraphClient.UpsertDocument | graph/client.py:125-136 | one upsert of a document |
| Client.GraphClient.UpsertBenchmark | graph/client.py:138-145 | one upsert of a benchmark |
| Client.GraphClient.UpsertParty | graph/client.py:147-152 | one upsert of a party |
| Client.GraphClient.Edge | graph/client.py:156-180 | one edge upsert with the three provenance properties |
| Client.GraphClient.LinkColumnToMetric | graph/client.py:182-197 | writes the MEASURES edge |
| Client.GraphClient.LinkMetricToEntity | graph/client.py:199-209 | writes the APPLIES_TO edge |
| Client.GraphClient.LinkMetricToDocument | graph/client.py:211-221 | writes the DEFINED_IN edge |
| Client.GraphClient.LinkMetricToBenchmark | graph/client.py:223-233 | writes the BENCHMARKED_AGAINST edge |
| Client.GraphClient.LinkMetricComputedFrom | graph/client.py:235-245 | writes the COMPUTED_FROM edge |
| Client.GraphClient.LinkDocumentToEntity | graph/client.py:247-257 | writes the DESCRIBES edge |
| Client.GraphClient.LinkPartyToEntity | graph/client.py:259-271 | writes the HAS_ROLE edge, role in its identity |
| Client.GraphClient.RelateEntities | graph/client.py:273-295 | succeeds exactly for RELATED_TO and allow-listed types, writing one edge from the subject to the object; a rejected call leaves the graph alone |
| Client.GraphClient.MetricAliases | graph/client.py:299-307 | the nested loop computes the tier-1 index of the stored metrics |
| Client.GraphClient.MetricTerms | graph/client.py:309-317 | the loop computes the term table of the stored metrics |
| Client.GraphClient.AddMetricAlias | graph/client.py:319-328 | teaches the metric the alias unless it lists it already, creating the metric if need be |
| Client.GraphClient.ResolveColumn | graph/client.py:332-355 | nothing for an unknown column; otherwise the column with each measured metric and the entities that metric applies to |
| WriteLaws.EntityTells | graph/client.py:66-80 | a subtype outside the allow-list leaves the graph alone; otherwise the entity has its attributes under their own names, and the subtype as a second label |
| WriteLaws.MetricTells | graph/client.py:82-102 | a metric has each of its five fields under its own name, overridden by a free attribute of that name; what is not given stays as it was |
| WriteLaws.ColumnTells | graph/client.py:104-123 | a column has its samples, its dictionary flag and, when given, its dtype |
| WriteLaws.DocumentTells | graph/client.py:125-136 | a document has its text and, when given, its title and date |
| WriteLaws.BenchmarkTells | graph/client.py:138-145 | a benchmark has its attributes under their own names |
| WriteLaws.PartyTells | graph/client.py:147-152 | a party has its attributes under their own names |
| WriteLaws.LessonTells | graph/client.py:319-328 | a lesson appends the alias to the stored list unless it is there, and touches no other property, node or edge |
| WriteLaws.LinksLead | graph/client.py:182-271 | each of the seven links is stored with its provenance and can be followed from its own source to its own target |
| WriteLaws.RelationLeads | graph/client.py:273-295 | a relation can be followed from its subject to its object under its type and role, or, exactly when the type is not permitted, nothing changes |
| WriteLaws.ColumnReadExactly | graph/client.py:332-355 | a column is found exactly when it is stored, with its own cell, and with a hit for exactly each stored metric it measures |
| WriteLaws.HitReadExactly | graph/client.py:346-354 | under each hit are exactly the stored entities that metric applies to |
| AliasLaws.IndexIsLastLister | graph/client.py:299-307 | a name is indexed if and only if some metric lists it, and then to the last such metric in insertion order |
| AliasLaws.LearnEffect | graph/client.py:319-328 | teaching an alias adds exactly its folded name to the index and changes no other entry |
| AliasLaws.LearnOwner | graph/client.py:319-328 | afterwards the name belongs to the taught metric exactly when no later-inserted metric lists it; always when nobody listed it before (every metric still carrying its own key) |
| AliasLaws.LearnNew | graph/client.py:319-328 | a name nobody listed maps to the taught metric, under the key it is stored with |
| AliasLaws.LearnTwice | graph/client.py:319-328 | teaching a metric the same alias twice in a row is teaching it once, insertion orders included |
| Schema.SchemaInvariant | graph/client.py:1-20 | after any run of registrations, writes, lessons, confirmations and loads, rejected ones included: base label and allow-listed extra labels on Entity only, spine or permitted edges only, provenance on every edge, no absent value stored |
| Schema.InvariantSpelled | graph/client.py:1-20 | the same, node by node and edge by edge: an entity has its base label and allow-listed ones, any other node its base label alone, an edge its source, time and creator, and an edge out of an entity a role and a permitted type |
| Schema.AllowedIsLawful | graph/client.py:72-77 | every call the client lets through makes a write the invariant allows |
| Schema.LoadIsLawful | ingestion/pipeline.py:49-104 | a load keeps the invariant, even one that a rejected relation ends |
| Schema.SpineIsLinks | graph/model.py:53-65 | the spine signatures are exactly the edges of the seven link methods |
| Schema.RelateOutcome | graph/client.py:273-295 | relating stores the edge from the subject to the object with its role and its own provenance, or changes nothing, exactly by the type being permitted |
| Suggesters.Suggest | resolver/suggest.py:43-57 | the loops and the sort compute the ranking of the positively scored metrics |
| Suggesters.SuggestionsAreRanking | resolver/suggest.py:43-57 | suggestions are sorted, list each metric once, and are exactly the metrics that score above zero, with rounded best scores |
| Suggesters.RankingIgnoresOrder | resolver/suggest.py:48-57 | the suggestions do not depend on the order of the term table |
| Suggesters.BestIsMax | resolver/suggest.py:49-52 | the score of a metric is the maximum over its terms, attained, and 0 without terms |
| Suggesters.RankSpelled | resolver/suggest.py:56-57 | in rank order scores descend and equal scores are in code-point order of their keys |
| FunnelLaws.TiersExactly | resolver/funnel.py:91-102 | a column is AUTO_LINKED exactly when some metric lists its name, to the last such metric; DOCUMENTED exactly when none does and it has a dictionary |
| FunnelLaws.SuggestedExactly | resolver/funnel.py:104-122 | otherwise SUGGESTED exactly when the slice keeps anything and some candidate reaches the threshold, naming the best (least key on ties); alternatives are the best candidates, as many as the slice keeps, for any `top_k` |
| FunnelLaws.OutcomeSpelled | resolver/funnel.py:87-122 | every outcome is about the column asked for; the metric, the score and the alternatives of each tier |
| FunnelLaws.TierOneSpelled | graph/client.py:299-307 | a column is auto-linked exactly when some stored metric has an alias that spells its name, in whatever case |
| FunnelLaws.CaseBlind | resolver/funnel.py:91-122 | columns whose names differ in case alone get the same tier, metric, score and alternatives |
| FunnelLaws.CapitalNameLinks | resolver/funnel.py:91-95 | one such name: the alias `weight` and the column `Weight` |
| FunnelLaws.TermsOfMembers | graph/client.py:314-315 | the terms of a metric are its folded aliases and the folded local part of its key, nothing else |
| FunnelLaws.TermsAscending | graph/client.py:316 | each term is listed once, in order |
| FunnelLaws.EntriesAreMetrics | graph/client.py:309-317 | the term table has exactly one entry for each stored metric |
| FunnelLaws.TermTableInOrder | graph/client.py:309-317 | metrics with keys of their own are listed in insertion order, each with its terms |
| FunnelLaws.LearningNeverLowersScores | graph/client.py:309-328 | adding an alias never lowers the score of any metric for any name |
| Resolvers.EscalationQueue.Enqueue | resolver/funnel.py:62-63 | appends to the queue |
| Resolvers.Resolver.constructor | resolver/funnel.py:73-85 | keeps the caller's queue only if it is not empty |
| Resolvers.Resolver.Resolve | resolver/funnel.py:87-122 | returns the decision for the current graph, leaves the graph alone and enqueues exactly an escalated outcome |
| Resolvers.Resolver.Confirm | resolver/funnel.py:124-136 | links the column and teaches the folded name |
| WriteBack.ConfirmEffect | resolver/funnel.py:124-136 | a confirmation changes the index at the confirmed name only, and a name new to it then maps to exactly the confirmed metric, under the key it is stored with |
| WriteBack.ConfirmOwner | resolver/funnel.py:124-136 | afterwards the name maps to the confirmed metric exactly when no later-inserted metric lists it |
| WriteBack.ConfirmResolves | resolver/funnel.py:130-132 | the next column of that name auto-links to the confirmed metric with score 1 |
| WriteBack.ConfirmStores | resolver/funnel.py:133-136 | a confirmation adds the link and, if need be, the metric; nothing else appears |
| WriteBack.ConfirmLeads | resolver/funnel.py:133-135 | after a confirmation the column leads to the metric |
| WriteBack.ConfirmTells | resolver/funnel.py:136 | and the metric lists the folded name of the column, after whatever it listed before |
| WriteBack.ConfirmTwice | resolver/funnel.py:124-136 | confirming the same match twice in a row, with equal provenance, is confirming it once |
| WriteBack.ConfirmShows | resolver/funnel.py:124-136 | reading the stored column afterwards shows the confirmed metric |
| WriteBack.TierOneOverRuns | resolver/funnel.py:124-136 | over any run of resolving, confirming and loading, the names at tier 1 are exactly the old ones and the confirmed ones |
| WriteBack.TierOneStays | resolver/funnel.py:17 | a name at tier 1 stays at tier 1 |
| WriteBack.Decay | resolver/funnel.py:124-136 | the part of any vocabulary that is not at tier 1 shrinks by exactly its confirmed names; this is not tier-2 volume, which the source speaks of (see TierTwoAfterConfirm) |
| WriteBack.ConfirmLowersByOne | resolver/funnel.py:124-136 | confirming a name not yet at tier 1 lowers the count of names not at tier 1 by exactly one |
| TierLaws.ConfirmTiers | resolver/funnel.py:124-136 | the tiers of undocumented columns after a confirmation, exactly: a name joins tier 1 only by being confirmed, and an escalated one joins tier 2 exactly when its ratio to the confirmed name, or to the local part of a new metric's key, is positive and, rounded, reaches the threshold |
| TierLaws.TiersNeverFall | resolver/funnel.py:15-18 | over any run no column falls to a lower tier: what is suggested is never escalated again |
| TierLaws.TierTwoAfterConfirm | resolver/funnel.py:15-18 | the tier-2 part of any vocabulary after a confirmation, exactly: it loses the confirmed name and gains the promoted ones; so the claimed decay of tier-2 volume holds exactly when fewer are promoted than leave |
| TierLaws.TierTwoCanRise | resolver/funnel.py:15-18 | an input on which confirming raises tier-2 volume from none to one: `weight_kg` is confirmed and `weight_kgs` comes within reach, for every valid scorer whose ratio of the two clears the threshold |
| TierLaws.LearnReaches | graph/client.py:319-328 | teaching a name to a metric brings within reach exactly the names similar enough to it, or to a new metric's local part |
| TierLaws.EscalatedExactly | resolver/funnel.py:117-122 | a column is escalated exactly when no metric lists it, it has no dictionary, and no candidate reaches the threshold |
| TierLaws.SecondLoadQueue | ingestion/pipeline.py:52 | a second load appends to the queue what the first did, and leaves it alone exactly when a forbidden relation ends the load or no column is escalated |
| TierLaws.UnknownColumnQueuedAgain | ingestion/pipeline.py:52 | one bundle, without relations, whose column is queued again |
| Pipeline.PickSubtype | ingestion/pipeline.py:107-118 | the first allow-listed candidate, or none when no candidate is allow-listed |
| Pipeline.AdmittedCount | graph/client.py:283-286 | the relations before the first one whose type is not permitted |
| Pipeline.LoadDocument | ingestion/pipeline.py:61-66 | one document's upsert, then its DESCRIBES and DEFINED_IN edges |
| Pipeline.LoadEntity | ingestion/pipeline.py:77-85 | one entity's upsert and its columns, recording it as their owner |
| Pipeline.LoadEntities | ingestion/pipeline.py:76-85 | all entities in order, and the owner map they leave |
| Pipeline.LoadRelations | ingestion/pipeline.py:87-91 | the relations before the first rejected one, and the rejection |
| Pipeline.ResolveAll | ingestion/pipeline.py:93-104 | one resolution per column in order, the links of the auto-linked ones, and exactly the escalated ones appended to the queue |
| Pipeline.LoadBundle | ingestion/pipeline.py:49-104 | the upserts made are exactly the compiled ones, one by one and in order; one decision per column against the starting graph, the queue extended by exactly the escalated ones; fails exactly on a rejected relation, naming the first one's type and queueing nothing |
| Pipeline.LoadCompiled | ingestion/pipeline.py:49-104 | resolving column by column against the growing graph is resolving against the starting one |
| Pipeline.DocumentInOrder | ingestion/pipeline.py:61-66 | a document is written before its links, and what it describes before what it defines, each in the order listed |
| Pipeline.RecordWritesAreRecords | ingestion/pipeline.py:61-91 | records are written to documents, columns, entities and the edges at documents or between entities only |
| Pipeline.LoadAvoidsMetrics | ingestion/pipeline.py:49-104 | a load never writes a Metric node |
| LoadLaws.RefetchAlike | ingestion/pipeline.py:56-59 | fetched at two times, a bundle compiles to writes that differ in values only |
| LoadLaws.InterruptedLoad | ingestion/pipeline.py:8-10 | any prefix of a load, then the whole load of the same content fetched at another time, equals the whole load alone |
| LoadLaws.LoadTwice | ingestion/pipeline.py:52 | loading twice in a row leaves the graph, the index and the decisions as after once, even with conflicting repeats inside the bundle (the queue, which is not left as after once, is the subject of SecondLoadQueue) |
| LoadLaws.LoadKeepsMetrics | ingestion/pipeline.py:49-104 | a load leaves the metrics and the tier-1 index as they are |
| LoadLaws.TwoPassLoad | graph/store.py:231-234 | loading twice into the store whose edges need both endpoints reaches the nodes and the anchored edges of one permissive load, and stays there |
| LoadLaws.OwnerIsLastCarrier | ingestion/pipeline.py:76-85 | the owner of a column is the last entity of the bundle that carries it |
| LoadLaws.MeasuresExactly | ingestion/pipeline.py:97-100 | MEASURES edges are written exactly for the auto-linked columns, to their metrics |
| LoadLaws.AppliesToExactly | ingestion/pipeline.py:101-103 | APPLIES_TO edges are written exactly for auto-linked columns that an entity carries, to the last such entity |
| LoadLaws.RecordsExactly | ingestion/pipeline.py:61-91 | the records of a bundle are written exactly: documents with what they describe and define, columns, entities, admitted relations |
| LoadLaws.NodesExactly | ingestion/pipeline.py:61-104 | afterwards the stored nodes are exactly the old ones and those the bundle names |
| LoadLaws.ReadAfterWrite | graph/client.py:332-355 | every loaded column can be read back; an auto-linked one shows its metric and, under it, the last entity that carries the column |
| LoadValues.LoadedProvenance | ingestion/pipeline.py:56-59 | every edge a load writes ends with its bundle's source, fetch time and connector version; every other edge is as it was |
| LoadValues.ColumnShowsLast | ingestion/pipeline.py:68-84 | a stored column shows its last observation in the order of `iter_columns` |
| LoadValues.ColumnDtype | graph/client.py:28-30 | its dtype is that of the last observation that gives one, or the one it had |
| LoadValues.NetOfOwned | ingestion/ir.py:144-149 | the columns written along the entities are the owned part of `iter_columns`, in order |
| LoadValues.DocumentTellsLast | ingestion/pipeline.py:61-62 | a stored document tells what its last record in the bundle tells |
| LoadValues.DocumentTitles | graph/client.py:28-30 | its title and date are those of the last records that give one, or the ones it had |
| LoadValues.EntityLabelsExactly | ingestion/pipeline.py:77-79 | an entity gains exactly the first allow-listed candidate of each of its records |
| LoadReads.EntityAttributes | ingestion/pipeline.py:76-79 | each attribute of a loaded entity has the last value its records give it, or the one it had |
| LoadReads.RelationsExactly | ingestion/pipeline.py:87-91 | the edges out of entities after a load are those of before and, from subject to object under their type and role, those of its relations up to the first whose type no pack permits |
| LoadReads.RelationRead | ingestion/pipeline.py:87-91 | each of those relations can be followed from its subject to its object, with the provenance of the bundle |
| LoadReads.DocumentRead | ingestion/pipeline.py:61-66 | each document leads to the entities it describes, and each metric it defines leads to it |
| LoadReads.LinkRead | ingestion/pipeline.py:97-104 | each auto-linked column leads to its metric, and that metric to the last entity that carries a column of that system, table and name |
| Checkpoints.InMemoryCheckpointer.constructor | ingestion/checkpoint.py:33-34 | a new ledger is empty |
| Checkpoints.InMemoryCheckpointer.HasSeen | ingestion/checkpoint.py:36-37 | membership of the (source, item) pair |
| Checkpoints.InMemoryCheckpointer.MarkDone | ingestion/checkpoint.py:39-40 | adds exactly that pair |
| Ingest.IngestItem | ingestion/pipeline.py:130-139 | skips an item, changing nothing, exactly when the ledger has its source and id; otherwise loads it, reports it and marks it; succeeds exactly when the ledger has that pair or holds no forbidden relation, and a rejected load names the relation's type, leaves the item unmarked and queues nothing |
| Ingest.RunIngest | ingestion/pipeline.py:121-140 | completes exactly when no pending item holds a forbidden relation, having made exactly the upserts of an uninterrupted ingestion of all discovered items, in order, and ends as it does, with its report and queue; otherwise stopped at such an item with its error, everything before it done and queued, and that item's upserts made up to the rejection |
| Ingest.LedgerAccounting | ingestion/pipeline.py:128-140 | the ledger grows by exactly the discovered keys, and an immediate re-run at whatever times writes nothing |
| Ingest.RunAccounting | ingestion/pipeline.py:130-139 | ingested plus skipped is the number discovered, and ingested is the number of distinct keys not yet done, even if discovery repeats items |
| Ingest.KeyExactly | ingestion/pipeline.py:131 | items share a ledger entry exactly when they share the source and the id |
| Ingest.SourcesApart | ingestion/checkpoint.py:10-14 | whatever a run of one source has marked, a run of another on that ledger and graph lets through the same items and reports the same counts, bundles and resolutions as if the first had not taken place |
| Ingest.ParsedSpelled | ingestion/pipeline.py:134-135 | a loaded bundle is the item's content, with the fetch time given for its source and id |
| CrashSafety.CrashRefinement | ingestion/pipeline.py:121-140 | however often the process stops after any upsert or before a mark and restarts, a completed run leaves exactly the graph and ledger of one uninterrupted run with the last fetch times |
| CrashSafety.ReachableInv | ingestion/pipeline.py:121-140 | in every reachable state the graph is a resumable extension of an uninterrupted run over the items the ledger has |
| CrashSafety.CrashAnywhere | ingestion/pipeline.py:8-10 | the process may stop anywhere: whatever time an item is fetched at, after any number of its upserts, the first ones in order, with the item unmarked |
| CrashSafety.DoneMeansIngested | ingestion/checkpoint.py:3-5 | in every reachable state every node and edge that the one interrupted item does not write has exactly the value an uninterrupted run over the done items, with their last fetch times, gives it |
| CrashSafety.DoneMeansWritten | ingestion/checkpoint.py:3-5 | and everything a done item names is stored with at least its labels and property names, also where the interrupted item writes |
| CrashSafety.CrashResumable | ingestion/pipeline.py:8-10 | stopping after any number of an item's writes leaves a graph from which its load gives what it would have given |
| CrashSafety.Recovery | ingestion/checkpoint.py:3-5 | from every state a restart can complete, if no item still to be loaded holds a forbidden relation |
| CrashSafety.RecoveryIsExact | ingestion/checkpoint.py:3-5 | from a reachable state the run can be completed if and only if no item still to be loaded, that is no first item with a key the ledger lacks, holds a forbidden relation |
| CrashSafety.RecoveryMeetsDriver | ingestion/pipeline.py:121-140 | that condition is the one under which the driver completes |
| Buckets.RefillIsLevel | ingestion/ratelimit.py:60-65 | refilling keeps the tokens within [0, capacity] and never moves the mark back |
| Buckets.LevelTwice | ingestion/ratelimit.py:60-65 | the level is that of a continuous bucket: going on from the level at any time in between gives the same level later |
| Buckets.RefillTwice | ingestion/ratelimit.py:60-65 | a refill on the way changes no later refill |
| Buckets.TryTakes | ingestion/ratelimit.py:67-72 | a call takes what it asks for when there is enough, and nothing otherwise |
| Buckets.RunValid | ingestion/ratelimit.py:60-72 | in every state of every run the tokens are in [0, capacity] and the mark is the highest reading |
| Buckets.RateBound | ingestion/ratelimit.py:67-72 | with a clock that never steps back, grants in any window never exceed capacity plus accrual |
| Buckets.GrantIsExact | ingestion/ratelimit.py:67-72 | with a clock that never steps back, a call is granted if and only if granting it keeps the bound of the whole run and of every window; no call is refused without need |
| Buckets.BurstExactly | tests/test_ratelimit.py:21-27 | calls at one instant are all granted if and only if what they ask for together is there; from a full bucket, if and only if it is at most the capacity |
| Buckets.TotalBound | ingestion/ratelimit.py:60-72 | whatever the clock does, all grants are covered by the first tokens and the accrual up to the highest reading |
| Buckets.PollingInvariance | ingestion/ratelimit.py:60-72 | refused calls on the way change no later answer |
| Buckets.SuccessesSuffice | ingestion/ratelimit.py:60-72 | the granted calls alone are granted again in full and leave an indistinguishable bucket |
| RateLimit.TokenBucket.Create | ingestion/ratelimit.py:44-58 | fails exactly for a rate that is not positive; otherwise a full bucket, the rate standing in for a missing capacity |
| RateLimit.TokenBucket.DoRefill | ingestion/ratelimit.py:60-65 | the fields become those of the refilled bucket value |
| RateLimit.TokenBucket.TryAcquire | ingestion/ratelimit.py:67-72 | one reading, whatever it shows: granted exactly when the level at that reading is enough, and then the level loses exactly what was asked for, otherwise nothing; the call joins the history, and readings in order so far stay in order unless this very reading steps back |
| RateLimit.TokenBucket.Retry | ingestion/ratelimit.py:79-83 | one turn of the waiting loop sleeps once and then succeeds, taking what was asked for once |
| RateLimit.TokenBucket.Acquire | ingestion/ratelimit.py:74-83 | rejects exactly above capacity; otherwise takes what was asked for exactly once, after at most one sleep; with exact sleeps it waits exactly max(0, shortfall/rate) and leaves nothing if it had to wait |
| RateLimit.EarliestGrant | ingestion/ratelimit.py:80-83 | that wait is the shortest: a call succeeds at a time if and only if the time has reached it |
| RateLimit.MakesUp | ingestion/ratelimit.py:82-83 | the accrual makes up a shortfall if and only if the delay has passed |
| RateLimit.AccruedSpelled | ingestion/ratelimit.py:60-65 | seconds times rate tokens accrue, so `rate` in one second |
| RateLimit.LevelPerSecond | ingestion/ratelimit.py:60-65 | the level is what was left and what accrued since, as far as the capacity |
| RateLimit.RateBoundPerSecond | ingestion/ratelimit.py:60-83 | grants between two times never exceed capacity + rate * (t2 - t1) |
| RateLimit.GrantIsExactPerSecond | ingestion/ratelimit.py:60-83 | a bucket that began full grants a request if and only if no window that ends with it would exceed capacity plus rate times its length |
| RateLimit.TotalBoundPerSecond | ingestion/ratelimit.py:60-83 | with a clock that may step back, the same with the highest reading |
| RateLimit.LimiterKeepsRate | ingestion/ratelimit.py:35-42 | every limiter object, after any run of its methods, has kept the lifetime bound, and the bound on every window if its readings so far were in order |
| RateLimit.LimiterIsExact | ingestion/ratelimit.py:35-42 | a limiter object whose readings were in order grants its next call if and only if it keeps the bound of every window that ends with it |
| Packs.Validate | packs/loader.py:86-96 | accepts exactly the packs each of whose keys lies under the namespace it owns, its own or else its name, or under the shared one; otherwise names the first offender |
| Packs.NamespaceExactly | packs/loader.py:82-92 | a key is accepted if and only if it is one of the two namespaces, which has no dot, or continues it after a dot |
| Packs.ForeignKeyRejected | packs/loader.py:89-96 | a pack with a key of another namespace is rejected |
| Packs.NamespaceOverName | packs/loader.py:77-84 | a pack that gives a namespace owns the keys under it, and not those under its own name |
| Packs.LoadPack | packs/loader.py:134-156 | a rejected pack changes neither graph nor allow-lists and writes nothing; otherwise its entity subtypes and its edge types each join their own allow-list, and the upserts made are exactly those of the compiled catalog, in order |
| Packs.LoadPackTwice | packs/loader.py:134-135 | loading a pack twice in a row is loading it once |
| Packs.PackAliases | packs/loader.py:141-153 | afterwards each metric has the last aliases its definitions give it, in their list or as a free attribute, or the ones it had |
| Packs.PackMetricTells | packs/loader.py:141-153 | afterwards every property of a metric, free attributes included, has the last value its definitions give it, or the one it had |
| Packs.PackBenchmarkTells | packs/loader.py:154-155 | and a benchmark has the last value its definitions give an attribute |
| Packs.PackKeepsKeys | graph/client.py:304-306 | after a pack load every metric still carries its own key, which the index and the term table are read from |
| Packs.TierOneAfterPack | packs/loader.py:141-153 | the names at tier 1 afterwards, exactly |
| Packs.LearnedSurvivesReload | packs/loader.py:141-153 | a learned alias stays on its metric through a reload if and only if that pack gives the metric no aliases or gives it that one; its name stays at tier 1 if and only if that pack gives the metric no aliases or some metric would list it anyway |
| Packs.ReloadForgets | packs/loader.py:16-18 | any name taught to a metric with pack aliases, and listed nowhere in it, is lost by reloading it |
| Packs.ReloadForgetsLenght | packs/loader.py:16-18 | one such input: a metric with the alias `len`, taught `lenght` |
| Synthetic.ProseRoundTrip | ingestion/connectors/synthetic.py:98-104 | the document parser recovers any uri that discovery encoded |
| Synthetic.RowsRoundTrip | ingestion/connectors/synthetic.py:135-163 | the rows parser accepts every discovered id and recovers system and table if and only if the system name has no dot |
| Synthetic.DiscoverSpelled | ingestion/connectors/synthetic.py:90-104 | tables are discovered before documents, each as an item of the source under an id and metadata that name it |
| Synthetic.RowsEntity | ingestion/connectors/synthetic.py:155-163 | a loaded table is an entity named after it, with its system and table and, if permitted, the label Widget |
| Synthetic.RowsColumns | ingestion/connectors/synthetic.py:140-153 | each of its fields is a column of that system and table, with the type and samples of the payload and no dictionary |
| Synthetic.ProseDocument | ingestion/connectors/synthetic.py:165-178 | a loaded document is stored under the uri it was discovered by, with its text, title and date |
| Synthetic.DiscoveredDistinctExactly | ingestion/connectors/synthetic.py:90-104 | the discovered ids are distinct if and only if no two tables are read as the same one |
| Synthetic.DiscoveredDistinct | ingestion/connectors/synthetic.py:90-104 | in particular if no system name has a dot |
| Synthetic.DottedCollides | ingestion/connectors/synthetic.py:92-93 | a dotted system name always has a namesake table with the same id |
| Synthetic.EmptyLedgerSkipsNone | ingestion/pipeline.py:130-133 | a completed run on an empty ledger skips nothing if and only if no two tables are read as the same one |
| Synthetic.NamesakeIsSkipped | ingestion/pipeline.py:130-133 | with the namesake listed first, the only item ingested is the namesake's |

## Left out

- The Neo4j driver, sessions, Cypher text, identifier checks and constraint statements; only the
  meaning of its edge write is modelled (`StrictStore.dfy`), and loads and runs against it are
  functions, not methods (`OnePass.dfy`, `StrictIngest.dfy`).
- `difflib`'s ratio and Python's rounding are parameters (`Scorer`): a ratio in [0, 1] that is 1 on
  equal strings, and a monotone rounding.
- Floating-point error: the bucket and the scores use real numbers.
- Threads and real clocks: upserts are atomic steps, the clock and the sleep are injected objects.
  `add_metric_alias` reads and then writes, so nothing is claimed for concurrent confirmations.
- `casefold` is ASCII lowering; other scripts are not folded.
- YAML reading and `pack_from_dict`.
- PackKeepsKeys: a free attribute that overwrites the metric key is excluded by a precondition;
  `pack_from_dict` lets none through.
- The payload side of the reference connector: dtype and sample inference, timestamps, `fetch` and
  its limiter call; a payload enters as its list of columns or its prose.
- `ParserRouter`, schema versions, `EmbeddingSuggester` and suggesters other than the default one.
- Relation attributes (the loader does not use them) and `IngestReport.by_tier`.
- The default ledger of `run_ingest`: a ledger is always passed.
- Properties named `_labels`: the store keeps its label set under that name, so the type of
  property dictionaries excludes it.
- A stored `aliases` value that is neither a list nor a string, and a metric whose own key property
  was overwritten by a value that is not a string: Python raises, the model reads nothing. The
  statements that follow metrics by key assume that each still carries its own key (`Keyed`), which
  an empty store satisfies and pack loads, bundle loads, lessons and confirmations keep.
- Widening the allow-lists between a crash and its restart: another label may then be picked while
  the old one stays.
- TokenBucket.Create: a negative capacity is excluded by a precondition, although the code does not
  check it.
- Acquire: a clock that steps back while it waits is excluded by a precondition, since the loop may
  then not end; `TryAcquire` allows any clock.
- TryAcquire: a negative request is excluded by a precondition, although the code does not check it.
- LoadBundle: the resolver is required to work on the store that is written, although the code
  accepts two different ones; the same holds for `ResolveAll`, `IngestItem` and `RunIngest`.
- TiersNeverFall: a `top_k` below 1 is excluded, as it keeps no best suggestion for sure; the same
  holds for the other statements about tier 2, except `SuggestedExactly`.
- Retry: as for `Acquire`, the clock must not step back.
- Everything in `docs/SYSTEM_DESIGN.md` that is not built: queues, a shared limiter, the serving
  interface.
