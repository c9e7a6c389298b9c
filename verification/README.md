# Verified models of the knowledge and assistant services

This project models six parts of the repository in Dafny and proves what they are for.

- **Block graph** (`GraphResolution`, `GraphRules`, `DeltaSchema`, `NodeIdentity`, `BlockForest`, `AcceptedDeltas`,
  `OwnerLinks`). A graph delta is checked against the schema and against the stored graph, the level and the root of
  each of its blocks are resolved, and it is written, with every node and edge it sends. The stored blocks stay a
  forest below entities and universes whose stored levels and roots are the true ones, each entity stays in one
  universe and each owner keeps one description, under exact conditions on the delta; deltas that are accepted and
  break each promise are given.
- **Type hierarchy** (`TypeHierarchy`, `SchemaUpsert`). Schema upserts keep inheritance a tree, and on it every
  walker of the hierarchy ends and gives the same answer.
- **Messages and categories** (`MessageChunks`, `CategoryTree`). Uncommitted messages are cut into chunks,
  enqueued and committed, with nothing lost or sent twice across retries. Categories unfold into their simple
  lineages, also on cyclic inheritance.
- **Jobs** (`JobOrchestrator`). Message handlers as step machines over job rows, an event log and
  acknowledgements, in every interleaving.
- **Journal cache** (`CacheKeys`, `JournalDatabase`, `JournalCache`). Cached reads always equal database reads, and
  following the pages of a journal shows each message once.
- **Chat and tool schemas** (`ChatTranslation`, `StreamAssembly`, `JsonPointers`, `SchemaAnnotations`,
  `ReferenceCuts`, `ToolArguments`). The order of tool calls and results, message translation and back, streamed
  tool calls put together from fragments, and argument types built from JSON schemas: they admit exactly what the
  schema allows, with cyclic references cut exactly where a reference is met again.

`Wrappers`, `Sequences`, `Names` (text order by code points) and `JsonValues` are shared helpers. Code of the
repository that changes state step by step is a method, with its loops, proved against a specification function or
predicate; the lemmas are about those. Run `dafny verify dfyconfig.toml` to check everything.

## What is assumed

- **Block graph.** The repository's context query reports paths of the stored graph (`ReportsStored`); it may miss
  blocks, and which scopes see which blocks is left open, so the different scopes that
  `graph_resolution.rs:56` and `graph_resolution.rs:147` look up in do not matter. Levels are unbounded integers.
  Edge types compare without case, as in the checks, so each is taken as its kind; the store refuses any edge type
  that is not upper case. A type's chain of first parents ends, as on every schema that upserts keep; else resolving
  its labels never does. That an id names one node is not assumed: stored nodes carry the labels they were created
  under, the store finds a node again only under its id and all labels of the type it is sent with, and what the
  forest needs of a delta is the exact condition of the main theorem. `ForestKeptBySchema` assumes that no id of a
  stored entity or universe is listed as a block, and `OneUniverseKept` that stored `IS_PART_OF` links lead from
  entities to universes.
- **Schema.** At the start the active links form a tree with `node.entity` at its top, and upserts run one at a time.
- **Jobs.** No crash, no database fault, no publish fault and no acknowledgement timeout: a message is delivered
  again only after it was refused. Payload validity is a property of the message.
- **Cache.** Each cache operation is atomic with the database access beside it, and invalidation does not raise.
  A conversation id belongs to the given user, user ids contain no colon, and no list cursor is the text `_`. The
  references may contain anything. Index sets never expire, as in the code; values may at any time.
- **Journal pages and lists.** What is said of pages holds where the sequence numbers of each conversation ascend,
  which every write keeps. The database compares references by code points, as it does under the collation C. Another
  collation would list them in another order.
- **Messages.** The query's rows come in its order, with one conversation for each user and reference. Nobody adds
  or commits messages while a job is being enqueued or between the retries that are counted.
- **Streams.** One choice. JSON parsing is a parameter.

## Where the documentation and the code disagree

The model follows the code.

- `apps/knowledge-interface/docs/grpc-api.md:23` lets a stored block's parent edge be sent again when it changes.
  The code counts stored and sent edges together and requires one, so every such delta is rejected
  (`ParentEdgeCannotReturn`).
- `docs/knowledge/graph-schema.md:34-36` describes a forest of blocks below entities and universes. An accepted delta
  keeps it exactly when every new parent edge leads to a block the delta lists, no DESCRIBED_BY link starts at a
  block, and no record creates a second node under an id (`UpsertKeepsForest`). The schema checks see to the second
  among listed blocks, when no rule for DESCRIBED_BY reaches a block type, so what is left of it is a DESCRIBED_BY
  edge from a stored block (`ForestKeptBySchema`). All three gaps are real: the parent count is made for listed blocks
  only (`UnlistedChildIsAccepted`), endpoint rules are checked only where both ends are listed
  (`BlockAsRootIsAccepted`), and a stored block listed again under a type with a further label, such as a `node.block`
  sent as `node.quote`, is not found again and gets a second node without a parent (`RetypedBlockIsAccepted`).
- `docs/knowledge/graph-schema.md:33` promises each entity exactly one `IS_PART_OF` edge. A stored entity sent
  with another universe keeps both (`MovedEntityIsAccepted`), and an entity that names itself, or an entity listed
  before it, as its universe passes the checks and is left without one (`OwnUniverseIsNone`). `OneUniverseKept`
  gives the exact condition, for every delta. The rules against entities without universe never fire
  (`RulesThatNeverFire`).
- `apps/knowledge-interface/docs/grpc-api.md:79-80` calls `DESCRIBED_BY` one-to-one. It is counted only for
  entities and universes that the delta lists as what they are stored as, so a new block below a stored owner that
  is not listed gives it a second description (`SecondDescriptionIsAccepted`). `OneDescribedKept` gives the exact
  condition. Both conditions speak of ids; `UpsertKeepsPromises` joins them with the forest and one node for each id.
- `apps/knowledge-interface/src/application/use_cases/upsert_graph_delta.rs:287-291` says that a universe must have a
  relationship. Its count trusts the universe links of listed entities, written or not: `ListedUniverseLinked` gives the
  exact condition, `LostUniverseIsAccepted` a universe that gets through.
- `apps/knowledge-interface/src/application/mod.rs:224-253` keeps inheritance among node types when a link is made. A
  linked type may be sent again as an edge type, and its links stay (`LinkedTypeTurnsEdge`).
- JSON Schema Validation, sections 6.1.1, 6.1.2 and 6.5.3, applies each keyword by itself. Here a list of values
  replaces the types, a required name without a property is not asked for, properties without a type ask for an
  object, and the type `null` alone admits anything (`ToolArguments.Allows`).
- `journal_service.py:221-222` writes a missing cursor as `_`, so the cursor `_` reads and fills the first page's
  entry. `ListKeysCollide` shows that no other cursors collide.
- The default of a tool argument is read beside a `$ref` only, never behind it. A reference is cut to any value
  exactly where the walk meets it again inside its own expansion (`CutIffMetAgain`). That expansion includes the keys
  beside the `$ref`, so a reference repeated there is cut although its target leads nowhere (`RepeatedBesideIsCut`).
  JSON pointers are followed through objects only, and neither `#` alone nor percent-encoding is understood, other
  than RFC 6901 sections 4 and 6 say.

## Model

| member | source | states |
|---|---|---|
| GraphResolution.FindParentContexts | apps/knowledge-interface/src/application/graph_resolution.rs:162-198 | Succeeds exactly when each unlisted SUMMARIZES parent is known in the scope of the last edge that names it, and then gives exactly those contexts; else it fails. |
| GraphResolution.LastScopeCounts | apps/knowledge-interface/src/application/graph_resolution.rs:167-183 | The scope recorded for an unlisted parent is that of the last edge that names it. |
| GraphResolution.SeedLevels | apps/knowledge-interface/src/application/graph_resolution.rs:37-61 | The seeds: 0 below DESCRIBED_BY, else the context's level, else the stored level, else no seed. |
| GraphResolution.FirstReportCounts | apps/knowledge-interface/src/application/graph_resolution.rs:50-61 | Of several listed blocks with one id, the first that the repository finds gives the stored level. |
| GraphResolution.MeasureDrops | apps/knowledge-interface/src/application/graph_resolution.rs:75-87 | Every update of the relaxation loop lowers the number of unassigned targets, or keeps it and lowers their summed height over the least seed. |
| GraphResolution.FixpointIsLeast | apps/knowledge-interface/src/application/graph_resolution.rs:74-87 | Levels on which no edge can improve anything are below every seed level plus path length. |
| GraphResolution.RelaxLevels | apps/knowledge-interface/src/application/graph_resolution.rs:74-87 | The loop ends on every edge list, cycles and self-loops included, and gives exactly the reached ids, each with the least seed level plus path length. |
| GraphResolution.BlockLevelsForBlocks | apps/knowledge-interface/src/application/graph_resolution.rs:25-92 | Fails exactly when some unlisted parent is unknown in the scope of the last edge that names it; else gives the least levels from the seeds, for listed blocks only. |
| GraphResolution.RootChainUnique | apps/knowledge-interface/src/application/graph_resolution.rs:119-158 | The chain a root is resolved along has one length, one root and one base level. |
| GraphResolution.NoChainOnCycle | apps/knowledge-interface/src/application/graph_resolution.rs:122-129 | A block whose parent walk returns to itself has no chain to a root, so giving up at a repeated block loses nothing. |
| GraphResolution.LinksAreEdges | apps/knowledge-interface/src/application/graph_resolution.rs:104-117 | The walk follows, for each listed block, the last DESCRIBED_BY and the last SUMMARIZES edge into it, and for each unlisted parent the context found in the scope of the last edge that names it. |
| GraphResolution.ResolveRoot | apps/knowledge-interface/src/application/graph_resolution.rs:120-158 | Gives the root exactly when the block has a chain to one; reports a cycle exactly when the walk enters one, and no root exactly when it ends at an unknown block. |
| GraphResolution.RootEntityIdsForBlocks | apps/knowledge-interface/src/application/graph_resolution.rs:94-160 | Succeeds exactly when every unlisted parent is known in the scope of the last edge that names it and every listed block resolves along the last edges into it; then maps each listed block to a root it resolves to. |
| GraphRules.CountDelta | apps/knowledge-interface/src/application/use_cases/upsert_graph_delta.rs:235-272 | The counter maps hold, for every id, the numbers of incoming, outgoing, IS_PART_OF, parent and DESCRIBED_BY edges of the delta, the implicit universe links included. |
| GraphRules.EnforceGraphStateRules | apps/knowledge-interface/src/application/use_cases/upsert_graph_delta.rs:230-379 | A rule is reported if and only if the stored and added counts of a listed node violate it. |
| DeltaSchema.ValidateDeltaAgainstSchema | apps/knowledge-interface/src/application/use_cases/upsert_graph_delta.rs:65-217 | Reports exactly the malformed ids, unknown universes, unknown types, nodes outside their base type and edges outside the endpoint rules, where rules reach all descendants of the types they name; reports nothing exactly when the delta passes as AcceptedPasses spells out. |
| DeltaSchema.AcceptedPasses | apps/knowledge-interface/src/application/use_cases/upsert_graph_delta.rs:65-217 | Nothing is rejected if and only if all ids are well-formed, each entity and block has a known type below its base and a known universe, each edge has a known type, and each edge whose ends are both listed, neither as a universe, is covered by a rule for the types under which they are listed last. |
| DeltaSchema.UniverseCheckPasses | apps/knowledge-interface/src/application/use_cases/upsert_graph_delta.rs:106-118 | The universe check passes exactly for a listed universe, the common one, or the id of an entity listed no later. |
| DeltaSchema.TypeOfKind | apps/knowledge-interface/src/application/use_cases/upsert_graph_delta.rs:177 | The schema type of an edge is its lower-case type name behind `edge.`. |
| NodeIdentity.LabelsFollowTypes | apps/knowledge-interface/src/application/type_hierarchy.rs:5-41 | On a tree a type has all labels of the types it descends from, and all labels of no other type unless two types share a label. |
| NodeIdentity.OneNodeKept | apps/knowledge-interface/src/infrastructure/memgraph/store.rs:62-118 | Merging records into nodes that ids name one by one leaves each id one node if and only if every record has only labels of the stored node of its id, or of the first record that created it. |
| NodeIdentity.WriteNodes | apps/knowledge-interface/src/infrastructure/memgraph/store.rs:62-118 | The records of universes, entities and blocks are merged in turn, each under its id and the labels of its type. |
| BlockForest.ChainUnique | apps/knowledge-interface/src/application/use_cases/upsert_graph_delta.rs:346-376 | In a forest a block reaches exactly one root at exactly one depth. |
| BlockForest.LevelsCountLinks | docs/knowledge/graph-schema.md:36 | In a well-formed graph a walk down k SUMMARIZES links adds k to the stored level and keeps the root, so SUMMARIZES has no cycle. |
| BlockForest.NoParentCycle | docs/knowledge/graph-schema.md:34-36 | In a well-formed graph no walk over DESCRIBED_BY and SUMMARIZES links returns to its start. |
| BlockForest.RootChainIsChain | apps/knowledge-interface/src/application/graph_resolution.rs:120-158 | A chain the root resolver follows through delta and stored contexts is a path of the new graph of its whole length. |
| BlockForest.ReachedIsDepth | apps/knowledge-interface/src/application/graph_resolution.rs:74-87 | Every level the relaxation can give a block is a depth of it in the new graph. |
| BlockForest.AttachedForest | apps/knowledge-interface/src/application/use_cases/upsert_graph_delta.rs:346-376 | Adding the parent edges of listed blocks to a forest gives a graph where each block has one parent and one root, when each has one parent in all and both resolvers succeed; it is a forest again when no DESCRIBED_BY link starts at a block. |
| BlockForest.DefaultsUnused | apps/knowledge-interface/src/application/use_cases/upsert_graph_delta.rs:35-57 | Both resolvers, when they succeed, give every listed block a level and a root, so neither fallback is ever used. |
| BlockForest.WrittenHolds | apps/knowledge-interface/src/infrastructure/memgraph/store.rs:62-185 | The written links are the stored ones, the edges sent with their ends and kind, and the universe links of listed entities; the written ids are the stored and the listed ones. |
| BlockForest.WrittenKeepsNodes | apps/knowledge-interface/src/infrastructure/memgraph/store.rs:62-131 | Stored nodes stay as they are, every record has a node with its id and all labels of its type, and every new node is a record. |
| BlockForest.ResolvedBlocksMatch | apps/knowledge-interface/src/application/use_cases/upsert_graph_delta.rs:35-57 | The level and the root resolved for a block are its depth and its root in the new forest. |
| BlockForest.LevelCountsHops | apps/knowledge-interface/src/application/use_cases/upsert_graph_delta.rs:35-57 | A block's level is the number of SUMMARIZES hops on the chain its root was resolved along plus the level known at its end. |
| BlockForest.UpsertKeepsForest | apps/knowledge-interface/src/application/use_cases/upsert_graph_delta.rs:15-63 | An accepted delta keeps the graph well-formed, one node for each id included, if and only if every new parent link leads to a block the delta lists, no DESCRIBED_BY link, stored or sent, starts at a stored or listed block, and every record finds the node of its id. |
| BlockForest.RunsKeepForest | apps/knowledge-interface/src/application/use_cases/upsert_graph_delta.rs:15-63 | Over every run of such deltas each id names one node, each block has one parent and one root, which is a stored entity or universe, no walk over parent links returns to its start, and every stored level equals the depth. |
| BlockForest.GraphStore.UpsertGraphDelta | apps/knowledge-interface/src/application/use_cases/upsert_graph_delta.rs:15-63 | Succeeds exactly when the schema, the state rules, both resolvers and the write do. Then the graph holds what it held and every universe, entity, block and edge of the delta, with the link of each listed entity to a known universe it names, and nothing else; listed blocks have the resolved levels and roots, all others keep theirs; stored nodes stay, and each record finds or makes one. Else the graph is unchanged and the reported errors are exactly the violated rules. |
| AcceptedDeltas.RulesThatNeverFire | apps/knowledge-interface/src/application/use_cases/upsert_graph_delta.rs:267-376 | No listed entity is ever isolated or without universe by these counts, and an isolated block always breaks the parent rule too. |
| AcceptedDeltas.ParentEdgeCannotReturn | apps/knowledge-interface/src/application/use_cases/upsert_graph_delta.rs:346-376 | Listing a stored block together with a parent edge into it is always rejected. |
| AcceptedDeltas.RulesApartOnTree | infra/metastore/knowledge-interface/seeds/001_starter_schema_types.sql:150-155 | On a tree of types, rules for DESCRIBED_BY reach no block type when the types they name neither lie below nor above the block type. |
| AcceptedDeltas.ListedRootIsNoBlock | apps/knowledge-interface/src/application/use_cases/upsert_graph_delta.rs:198-215 | With such rules the schema checks let no listed block be the root of a listed block. |
| AcceptedDeltas.ForestKeptBySchema | apps/knowledge-interface/src/application/use_cases/upsert_graph_delta.rs:15-63 | With such rules, and no owner's id listed as a block, an accepted delta keeps the forest if and only if it lists every block it gives a parent, no DESCRIBED_BY edge starts at a stored block, and every record finds the node of its id. |
| AcceptedDeltas.UnlistedChildIsAccepted | apps/knowledge-interface/src/application/use_cases/upsert_graph_delta.rs:346-376 | In any well-formed graph, one new SUMMARIZES edge between stored blocks, sent alone, passes every check and resolver, finds its ends, and breaks the forest. |
| AcceptedDeltas.BlockAsRootIsAccepted | apps/knowledge-interface/src/application/use_cases/upsert_graph_delta.rs:198-201 | A new block whose DESCRIBED_BY edge starts at an unlisted stored block passes every check and resolver, lists all it should, and is written with a block as its root. |
| AcceptedDeltas.RetypedBlockIsAccepted | apps/knowledge-interface/src/infrastructure/memgraph/store.rs:113-118 | A stored block listed again under a type with a label its node lacks passes every check and resolver, meets the other conditions, and is written as a second node. |
| AcceptedDeltas.SubtypesKeepEndpoints | apps/knowledge-interface/src/application/use_cases/upsert_graph_delta.rs:198-215 | An edge the endpoint rules allow between two types is allowed between all their subtypes. |
| AcceptedDeltas.DescribedByIsDirected | infra/metastore/knowledge-interface/seeds/001_starter_schema_types.sql:151-153 | With the starter rules on a tree that keeps universes, entities and blocks apart, a DESCRIBED_BY edge from a listed entity to a listed block passes the endpoint check, and its reverse is reported. |
| AcceptedDeltas.ListedUniverseLinked | apps/knowledge-interface/src/application/use_cases/upsert_graph_delta.rs:274-290 | A universe listed by an admitted delta has a link afterwards, unless nothing stored or sent leads to it or from it and it is also listed as an entity whose own universe is unknown. |
| AcceptedDeltas.LostUniverseIsAccepted | apps/knowledge-interface/src/application/use_cases/upsert_graph_delta.rs:267-272 | A universe listed as an entity too, inside an entity listed before it, passes every check and is left without a link. |
| OwnerLinks.OneUniverseKept | docs/knowledge/graph-schema.md:33 | Every entity is in exactly one universe afterwards if and only if the links sent for an entity to known universes agree, a stored entity is sent with its stored universe only, and a new one is sent with some. |
| OwnerLinks.MovedEntityIsAccepted | apps/knowledge-interface/src/infrastructure/memgraph/store.rs:82-112 | A stored entity sent together with another stored universe passes every check and is then in more than one. |
| OwnerLinks.OwnUniverseIsNone | apps/knowledge-interface/src/application/use_cases/upsert_graph_delta.rs:106-118 | A new entity naming itself as universe passes every check and is written without any universe link. |
| OwnerLinks.OneDescribedKept | apps/knowledge-interface/docs/grpc-api.md:79-80 | No entity or universe has two outgoing DESCRIBED_BY links after an admitted delta if and only if, for each owner the rules do not count, every sent link is its only one, stored or sent. |
| OwnerLinks.SecondDescriptionIsAccepted | apps/knowledge-interface/src/application/use_cases/upsert_graph_delta.rs:281-345 | A new block below an unlisted stored owner that has a description passes every check and gives the owner two. |
| OwnerLinks.UpsertKeepsPromises | docs/knowledge/graph-schema.md:33-36 | An accepted delta keeps the forest, one universe for each entity, one description for each owner and the ends of IS_PART_OF links together if and only if it meets the condition of each and its IS_PART_OF edges lead from entities to universes. |
| OwnerLinks.RunsKeepPromises | docs/knowledge/graph-schema.md:33-36 | Over every run of accepted deltas that meet these conditions, typed IS_PART_OF edges included, all these promises are kept together. |
| TypeHierarchy.IsAssignable | apps/knowledge-interface/src/application/type_hierarchy.rs:43-63 | Ends on every finite link list, cyclic and multi-parent ones included, and decides exactly its reflexive-transitive closure. |
| TypeHierarchy.ResolveLabelsForType | apps/knowledge-interface/src/application/type_hierarchy.rs:5-41 | The labels of the parent chain, topmost first. |
| TypeHierarchy.LabelsShared | apps/knowledge-interface/src/application/type_hierarchy.rs:25-40 | A label is the type's name without any `node.` in front, its first letter a capital; two types share one exactly when their names differ at most in the case of the first letter. |
| TypeHierarchy.ExtractionChain | apps/knowledge-interface/src/application/use_cases/extraction_schema.rs:95-101 | The parent chain, topmost first. |
| TypeHierarchy.SeenGuardedChain | apps/knowledge-interface/src/application/use_cases/extraction_schema.rs:315-336 | On any parent map, cyclic ones included, ends with a walk up without repetition, topmost first. |
| TypeHierarchy.ExtractionTypeIsAssignable | apps/knowledge-interface/src/application/use_cases/extraction_schema.rs:338-356 | True exactly for the types on the parent chain. |
| TypeHierarchy.LeastParents | apps/knowledge-interface/src/application/use_cases/extraction_schema.rs:72-86 | The fold keeps, for each child with an included link, its least parent. |
| TypeHierarchy.LeastParentsOrderFree | apps/knowledge-interface/src/application/use_cases/extraction_schema.rs:128-142 | The fold gives the same map for any order and repetition of the links, also with several parents. |
| TypeHierarchy.WalkersAgree | apps/knowledge-interface/src/application/use_cases/extraction_schema.rs:231-246 | Where each type has one parent and the chain ends, the types a type descends from are exactly its chain, without repetition, and the guarded walk is that whole chain. |
| SchemaUpsert.NoCycle | apps/knowledge-interface/src/application/mod.rs:231-282 | In the tree no positive number of parent links leads from a type to itself. |
| SchemaUpsert.UpsertKeepsTree | apps/knowledge-interface/src/application/mod.rs:215-312 | An upsert that passes the checks keeps the tree and every parent already set, and puts a linked node type below node.entity. |
| SchemaUpsert.ChecksAdmit | apps/knowledge-interface/src/application/mod.rs:219-277 | The checks pass exactly for an edge type or node.entity without a parent, or a node type below a stored node type under node.entity that is its only parent. |
| SchemaUpsert.UpsertKeepsTyped | apps/knowledge-interface/src/infrastructure/postgres.rs:46-69 | Links keep leading from node types to node types exactly when no linked type is sent as an edge type. |
| SchemaUpsert.LinkedTypeTurnsEdge | apps/knowledge-interface/src/application/mod.rs:219-229 | Any linked type sent again as an edge type passes the checks and keeps its links. |
| SchemaUpsert.SchemaRepository.IsDescendantOfEntity | apps/knowledge-interface/src/infrastructure/postgres.rs:158-181 | Decides whether the parent chain reaches node.entity. |
| SchemaUpsert.SchemaRepository.UpsertSchemaType | apps/knowledge-interface/src/application/mod.rs:215-312 | Fails with the first failing check and changes nothing; a failed vector sync is rolled back without a trace; else the stored row is the one sent and its link is active, if it was written, and all other rows and links stay; the tree is kept in every case. |
| SchemaUpsert.SchemaRepository.RollBack | apps/knowledge-interface/src/application/mod.rs:365-389 | The previous row is back, or the row is gone when there was none; links stay. |
| SchemaUpsert.RunsKeepTree | apps/knowledge-interface/src/application/mod.rs:231-303 | Every run of upserts, rolled back ones included, keeps the parent relation a function, acyclic, with node.entity at the top. |
| SchemaUpsert.WalkersAgreeAfterRun | apps/knowledge-interface/src/application/type_hierarchy.rs:9-23 | On every schema a run reaches, any list of its links gives the same parents to all walkers, whose chains end and are the closure. |
| MessageChunks.SplitByTokenLimit | apps/assistant-backend/app/services/knowledge_service.py:553-569 | The loop computes the greedy split. |
| MessageChunks.GreedyIsSplit | apps/assistant-backend/app/services/knowledge_service.py:553-569 | The greedy chunks are not empty, join to the run, and each of two or more messages is within the limit. |
| MessageChunks.GreedyIsOptimal | apps/assistant-backend/app/services/knowledge_service.py:553-569 | No split of the run into such chunks has fewer of them. |
| MessageChunks.ListUncommittedMessageSequences | apps/assistant-backend/app/services/knowledge_service.py:523-551 | The loop over rows, with its branch on the previous row's commit flag, computes the listing. |
| MessageChunks.ListingIsChunks | apps/assistant-backend/app/services/knowledge_service.py:523-551 | On rows with a consistent LAG the listing equals one pass that never looks at that flag: the branch on it never fires. |
| MessageChunks.ChunksArePartition | apps/assistant-backend/app/services/knowledge_service.py:523-569 | The chunks joined in order are the uncommitted rows; each is a stretch of neighbouring rows of one reference without a committed one, within the limit when longer than one. |
| MessageChunks.PendingPicksWanted | apps/assistant-backend/app/services/knowledge_service.py:500-522 | The pending chunks carry exactly the uncommitted messages of the asked journal, or of all journals, at ascending positions. |
| MessageChunks.LagIsPrevious | apps/assistant-backend/app/services/knowledge_service.py:508-511 | Each row carries the commit flag of the message before it in its conversation, if there is one. |
| MessageChunks.ResumesExactly | apps/assistant-backend/app/services/knowledge_service.py:371-408 | After the first k chunks are committed, listing the messages again gives exactly the remaining chunks. |
| MessageChunks.KnowledgeService.EnqueueUpdateJob | apps/assistant-backend/app/services/knowledge_service.py:371-408 | Sends and commits the pending chunks in order up to the first failure, and reports that failure, or that there was nothing to send; when it succeeds, the new jobs carry exactly the uncommitted messages, of the asked journal if one is asked for, each once and in order. |
| MessageChunks.RetriesConserveChunks | apps/assistant-backend/app/services/knowledge_service.py:371-408 | Over any number of attempts the chunks sent so far followed by those still pending are the chunks pending at the start. |
| MessageChunks.AllSentOnce | apps/assistant-backend/app/services/knowledge_service.py:371-408 | Once nothing is pending, the messages sent are exactly the uncommitted ones of the start, each once and in order. |
| MessageChunks.AllWantedSent | apps/assistant-backend/app/services/knowledge_service.py:371-408 | Once nothing is pending, the messages sent are exactly the uncommitted ones of the asked journal, at ascending positions. |
| CategoryTree.CollectChildren | apps/assistant-backend/app/services/knowledge_service.py:121-131 | A category's children are exactly the categories with an active link to it. |
| CategoryTree.CollectReachable | apps/assistant-backend/app/services/knowledge_service.py:133-149 | The worklist ends on cyclic links too, with exactly the categories reachable from the roots. |
| CategoryTree.BuildSubCategories | apps/assistant-backend/app/services/knowledge_service.py:163-182 | The recursion ends on cyclic links and gives exactly the unfolding below a category that avoids its lineage, siblings sorted. |
| CategoryTree.ForestUnique | apps/assistant-backend/app/services/knowledge_service.py:163-197 | Sorted siblings and the set of paths determine the tree. |
| CategoryTree.ListWikiCategoryTree | apps/assistant-backend/app/services/knowledge_service.py:98-197 | A path is in the tree if and only if it is a lineage of active links between active node types from an allowed child of node.entity without a repeated category; each node shows the name of the last type of its id, and siblings are in the order of those types' names, then ids. |
| CategoryTree.SimpleLineageIsLineage | apps/assistant-backend/app/services/knowledge_service.py:112-161 | The lineages are those of the schema alone: active types of kind node under `node.`, linked by active links, without a repetition. |
| CategoryTree.SortedShowsLast | apps/assistant-backend/app/services/knowledge_service.py:112-120 | Each node shows the display name, and is sorted by the sort name, of the last type of its id. |
| Names.LessByFirstDifference | apps/assistant-backend/app/services/knowledge_service.py:157-161 | A text comes before another exactly when it has the smaller character at the first difference, or is a proper prefix. |
| CategoryTree.OccursIsReachable | apps/assistant-backend/app/services/knowledge_service.py:133-197 | A category occurs in the tree if and only if links lead to it from an allowed child of node.entity. |
| JobOrchestrator.StepKeepsInv | apps/job-orchestrator/app/orchestrator.py:36-115 | Every step of every handler keeps: one owner for each row, and row and log of a job a function of where its owner stands. |
| JobOrchestrator.DuplicatesAreInvisible | apps/job-orchestrator/app/orchestrator.py:69-81 | A message whose job another one registered is invisible: every interleaving leaves the rows, the log, the runs and all other handlers exactly as if it had taken no step. |
| JobOrchestrator.OneRunnerPerJob | apps/job-orchestrator/app/job_repository.py:13-27 | In every interleaving all runs of a job are for the same message. |
| JobOrchestrator.JobsEndCompletely | apps/job-orchestrator/app/orchestrator.py:36-115 | In every interleaving an acknowledged valid message is a duplicate that ran nothing, or its job's whole log is ENQUEUED, (STARTED RETRYING)*, STARTED and one terminal event, with its result, its row terminal, and a dead letter exactly on FAILED_FINAL after the last delivery. |
| JobOrchestrator.TerminalRowIffEvent | apps/job-orchestrator/app/job_repository.py:29-83 | Between deliveries a job's row is terminal if and only if its terminal event was emitted. |
| JobOrchestrator.EveryMessageEnds | apps/job-orchestrator/app/orchestrator.py:36-115 | Whatever the other handlers do, a message is acknowledged within the delivery limit after a bounded number of its own steps. |
| JobOrchestrator.Worker.ProcessMessage | apps/job-orchestrator/app/orchestrator.py:36-115 | The handler as written takes exactly the steps of the step machine, from delivery to its answer. |
| CacheKeys.TextInjective | apps/assistant-backend/app/services/journal_service.py:219-240 | Different cache keys have different texts, whatever colons the references contain. |
| CacheKeys.ListKeysCollide | apps/assistant-backend/app/services/journal_service.py:219-224 | Two list cursors share a key if and only if one is missing and the other is the text _. |
| JournalDatabase.FetchListIsTop | apps/assistant-backend/app/services/conversation_service.py:106-129 | A list is strictly descending by reference, at most limit long, holds entries below the cursor, and leaves one out only when it is full and that one is smaller than all listed. |
| JournalDatabase.ListConversations | apps/assistant-backend/app/services/conversation_service.py:106-129 | The read gives this list. |
| JournalDatabase.OtherListsUnchanged | apps/assistant-backend/app/services/conversation_service.py:106-129 | A write to one user's conversation changes no list of another user. |
| JournalDatabase.PageIsPage | apps/assistant-backend/app/services/conversation_service.py:152-198 | For messages of ascending sequence numbers a page is strictly descending, at most limit long, holds messages below the cursor only, and leaves one out only when it is full and that one is older than all on it. |
| JournalDatabase.PagesShowAll | apps/assistant-backend/app/services/conversation_service.py:188-191 | Following the cursor from the first page shows every message exactly once, newest first, for any page length. |
| JournalDatabase.PostedLeads | apps/assistant-backend/app/services/conversation_service.py:49-66 | Posting keeps the sequence numbers ascending, and a new message leads the next first page, with the others behind it. |
| JournalDatabase.EntryDescribes | apps/assistant-backend/app/services/conversation_service.py:110-117 | An entry tells the ids and times of its conversation, the number of its messages and the greatest of their times. |
| JournalCache.FillKeepsCoherent | apps/assistant-backend/app/services/journal_cache_store.py:43-52 | Storing a fresh read and registering its key keeps every cached value right and every list and page indexed. |
| JournalCache.InvalidationRestores | apps/assistant-backend/app/services/journal_service.py:185-194 | After a write to one conversation, the invalidation leaves no cached value that the write made stale. |
| JournalCache.JournalService.ListJournals | apps/assistant-backend/app/services/journal_service.py:85-99 | Hit or miss, the answer is what the database would return, and the cache stays coherent. |
| JournalCache.JournalService.GetJournal | apps/assistant-backend/app/services/journal_service.py:101-126 | Hit, negative hit or miss, the answer is what the database would return: an entry exactly when the conversation exists, with its times, its number of messages and the time of the latest. The cache stays coherent. |
| JournalCache.JournalService.ListMessages | apps/assistant-backend/app/services/journal_service.py:135-165 | Hit or miss, the page is what the database would return, which is a page as PageIsPage states for ascending sequence numbers, and empty for a missing conversation. The cache stays coherent. |
| JournalCache.JournalService.CreateJournalMessage | apps/assistant-backend/app/services/journal_service.py:37-57 | A message with a known client id only gets new content, any other follows all stored ones with a greater sequence number; nothing else changes, sequence numbers stay ascending, and the cache is coherent with the new database. |
| JournalCache.JournalService.EnsureJournal | apps/assistant-backend/app/services/journal_service.py:31-35 | A stored conversation is touched and keeps all its messages, a missing one is created empty; nothing else changes and the cache is coherent. |
| JournalCache.JournalService.CreateJournalToolCall | apps/assistant-backend/app/services/journal_service.py:59-83 | Only the named message changes, by the call added to it; sequence numbers stay ascending and the cache is coherent. |
| JournalCache.RunsStayCoherent | apps/assistant-backend/app/services/journal_service.py:31-194 | After any sequence of reads, writes and expiries every cached list, page and entry, not-found markers included, is what the database would return. |
| ChatTranslation.ValidateToolCallSequence | apps/model-provider/app/contracts/native_chat.py:91-123 | Raises nothing exactly when every message is in order where it stands and no call is left pending: calls only where nothing is pending; no result where nothing is; else a user message of results only, each for another pending call. |
| ChatTranslation.AcceptsInOrder | apps/model-provider/app/contracts/native_chat.py:91-123 | The pass over the list with its set of pending calls accepts exactly the lists in order by position, where a call is pending if an assistant message before made it and no message between answered it. |
| ChatTranslation.CallsAreAnswered | apps/model-provider/app/contracts/native_chat.py:91-123 | In an accepted list every tool call is answered by a later user message. |
| ChatTranslation.ResultsHaveCalls | apps/model-provider/app/contracts/native_chat.py:91-123 | In an accepted list every tool result answers a call made before it. |
| ChatTranslation.ToNativeMessages | apps/model-provider/app/main.py:172-198 | The loop computes the translation to native messages. |
| ChatTranslation.NativeSaysSame | apps/model-provider/app/main.py:172-198 | A translated message has the speaker, the text, the calls made and the call answered of the original. |
| ChatTranslation.ToOpenAIMessages | apps/model-provider/app/providers/openai_client.py:73-119 | The loops compute the translation to OpenAI messages. |
| ChatTranslation.RoundTrip | apps/model-provider/app/main.py:172-198 | Translating to native and back is a normalisation: it drops empty messages and unknown roles and wraps arguments that are no object. |
| ChatTranslation.NormalFixed | apps/model-provider/app/providers/openai_client.py:73-119 | The normalisation is the identity on lists in normal form. |
| ChatTranslation.NormalizeIdempotent | apps/model-provider/app/providers/openai_client.py:73-119 | Normalising twice is normalising once. |
| ChatTranslation.NormalisedRoundTrip | apps/model-provider/app/contracts/native_chat.py:91-123 | An accepted list stays accepted after normalisation, and the normalised list survives the round trip unchanged. |
| StreamAssembly.NativeChatStream | apps/model-provider/app/providers/openai_client.py:229-283 | The loop with its map of pending calls, sorted at the finish, yields the specified frames. |
| StreamAssembly.StateIsOwnFragments | apps/model-provider/app/providers/openai_client.py:242-264 | What is pending for an index depends on its own fragments only: the last id and name sent and all arguments joined. |
| StreamAssembly.StreamShowsWhole | apps/model-provider/app/providers/openai_client.py:229-283 | However the calls are numbered, cut and interleaved, the frames are exactly one delta for each chunk with text, one frame for each call in ascending index, malformed arguments as raw text, and the finish reason. |
| StreamAssembly.FinishStartsAfresh | apps/model-provider/app/providers/openai_client.py:266-283 | After a finish nothing is pending: what follows is read as a stream of its own. |
| StreamAssembly.UnfinishedShowsText | apps/model-provider/app/providers/openai_client.py:229-283 | A stream that stops without a finish shows its text and no call. |
| StreamAssembly.StreamAgreesWithWhole | apps/model-provider/app/providers/openai_client.py:176-195 | The blocks put together from the frames are those of the response read as a whole, if and only if all arguments parse. |
| JsonPointers.UnescapeEscape | apps/assistant-backend/app/agents/tools/mcp_tooling.py:170-171 | The two replacements, in the code's order, undo the escapes of section 3 of RFC 6901. |
| JsonPointers.SplitJoin | apps/assistant-backend/app/agents/tools/mcp_tooling.py:170 | Splitting at slashes inverts joining parts without one. |
| JsonPointers.ResolveJsonSchemaRef | apps/assistant-backend/app/agents/tools/mcp_tooling.py:165-177 | The walk gives the object at the path the reference spells, and nothing otherwise. |
| JsonPointers.ResolveInvertsPointer | apps/assistant-backend/app/agents/tools/mcp_tooling.py:165-177 | Resolving the printed pointer of any non-empty path gives an object if and only if it is the value at that path. |
| JsonPointers.PointerInjective | apps/assistant-backend/app/agents/tools/mcp_tooling.py:165-177 | Two paths never print as the same pointer. |
| JsonPointers.ResolvesAsCanonical | apps/assistant-backend/app/agents/tools/mcp_tooling.py:165-177 | Any spelling of a local reference resolves as its canonical pointer; no other reference resolves. |
| SchemaAnnotations.FollowingShrinks | apps/assistant-backend/app/agents/tools/mcp_tooling.py:63-80 | Following a reference strictly shrinks the set of references of root and schema not yet seen, cyclic ones included: with the schema's size, the measure on which the builder ends. |
| SchemaAnnotations.JsonSchemaToAnnotation | apps/assistant-backend/app/agents/tools/mcp_tooling.py:52-150 | The recursive builder with its loops ends for every finite schema and computes the specified annotation, whose values ReferencesAdmitAllowed characterises. |
| SchemaAnnotations.DerefIsPlain | apps/assistant-backend/app/agents/tools/mcp_tooling.py:63-80 | Dereferencing leaves no reference anywhere the builder goes. |
| SchemaAnnotations.DerefKeepsAnnotation | apps/assistant-backend/app/agents/tools/mcp_tooling.py:52-150 | Following references on the way gives the same annotation as dereferencing first and building from the plain schema, with any root and any references seen. |
| ToolArguments.AdmitsAllowed | apps/assistant-backend/app/agents/tools/mcp_tooling.py:36-150 | The annotation of a schema without references admits exactly the JSON values that the schema allows by its types, listed values, properties, required names and items. |
| ToolArguments.ReferencesAdmitAllowed | apps/assistant-backend/app/agents/tools/mcp_tooling.py:52-150 | The annotation of any schema, with any root and any references seen, admits exactly the values that the dereferenced schema allows. |
| ToolArguments.ReferenceMeaning | apps/assistant-backend/app/agents/tools/mcp_tooling.py:63-80 | A reference met again admits anything, one that leads nowhere is ignored, and any other admits what its target with the keys beside it laid over does. |
| ToolArguments.BuildArgsSchema | apps/assistant-backend/app/agents/tools/mcp_tooling.py:180-201 | The argument type of a tool admits exactly the objects whose given arguments are allowed by their schemas and in which no required one is missing; a missing one becomes the default beside it, or null. |
| ReferenceCuts.CutIffMetAgain | apps/assistant-backend/app/agents/tools/mcp_tooling.py:63-80 | A reference is cut to any value if and only if some path of a walk that remembers nothing follows it and meets it again: in its target, in the keys laid over the target, or further on. |
| ReferenceCuts.UncutForgets | apps/assistant-backend/app/agents/tools/mcp_tooling.py:67-68 | A schema in which nothing is cut has the same annotation with any of the seen references forgotten. |
| ReferenceCuts.UncutIsTransparent | apps/assistant-backend/app/agents/tools/mcp_tooling.py:70-80 | Where nothing is cut, a reference has the annotation of its target with the keys beside it laid over, built on its own. |
| ReferenceCuts.CutOnlyOnCycles | apps/assistant-backend/app/agents/tools/mcp_tooling.py:67-68 | When no reference leads back to itself and references stand alone, nothing is cut and the seen-set makes no difference. |
| ReferenceCuts.RepeatedBesideIsCut | apps/assistant-backend/app/agents/tools/mcp_tooling.py:67-80 | In any root without references, a reference repeated by a property beside it is cut to any value there, although the property alone has the target's annotation. |

## Left out

- gRPC, HTTP, NATS, Redis, Postgres, Memgraph and Qdrant: each is a map, a relation or a log with the effect its call sites rely on; store code is modelled only where a count or a write is part of a property.
- Property checks of a delta, the UUID form of ids, embeddings, texts and the universe id of a block's vector: inputs or left open, each settled by reading one branch.
- Cleaning of labels before the write: an empty label is dropped and a malformed one fails the write, which here is one of its outcomes. A type that lies below both the entity and the block type is known by the list it is sent in.
- Failed writes of schema properties after the inheritance link: they touch neither types nor links.
- Property selection of `build_entity_type_property_context`: a fold over the chain that is modelled.
- Job error texts, results' details and progress events; faults between the steps of a handler, where the code may turn a completed row back into a failed one (`apps/job-orchestrator/app/orchestrator.py:87-115`).
- Races between a cache fill and an invalidation, and concurrent schema upserts: the code does not exclude them.
- Search, today's journal, page details and page edits of the assistant: reads and plumbing without state of their own.
- Usage frames, retries and error mapping of the model provider; several choices in one stream; tool definitions, tool choice and structured output: one-branch translations. Message contents are text.
- `ArchitectTokenRateLimiter`: it records arrivals before it sleeps, so it does not bound what it releases.
- Names and descriptions of argument models, and the conversions pydantic makes before it checks a value, such as a number given as text: a value here belongs to a type as it is, and a number without a fraction is an integer.
- ReferenceCuts.CutOnlyOnCycles: is a sufficient condition that needs no walk; the exact one is `CutIffMetAgain`.
- DeltaSchema.ValidateDeltaAgainstSchema: does not model the property, timestamp and universe-name checks of its source, which enter `UpsertGraphDelta` as one flag.
- JournalDatabase.ListConversations: orders references by code points, where the database uses its collation.
- StreamAssembly.StreamAgreesWithWhole: is about streams that end with their finish reason; calls still pending when a stream stops without one are dropped, as in the code.
- JobOrchestrator.Worker.ProcessMessage: runs one delivery without interruption; interleavings are the step machine's.
