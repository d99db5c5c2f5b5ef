# Bulk loading, LSP sessions and three small cores: a Dafny model

The project models the behaviour of a property-graph database on SQLite and of the scripts around it, and proves what each part promises.

**The bulk loader** (`Graph`, `Loader`, `Store`, `BulkLoading`, `StreamedLoads` and the theorem files beside them). `Graph` holds the tables as bags of rows with the schema's UNIQUE keys. `Loader` says what the loader computes as functions on values; `BulkLoading` is the mutable loader over the mutable `Store`, method by method proved against those functions; `StreamedLoads` is the streaming wrapper. The theorems are about the functions: atomicity of a streamed load (`Streaming`, `Origins`, `Committed`), batched = unbatched (`Batching`, `BatchingProof`, `BatchingTheorem`), set-based replace = sequential upserts (`ReplaceBatch`, `Upserts`, `KeylessBatches`), idempotent re-import (`Reimport`, `Connections`, `SecondImport`), an isomorphic copy under every id policy (`Isomorphism`), fresh cursors and a complete collision check (`Cursors`), an index equal to what it indexes (`FullText`, `Consistency`), and what fails a load and what a flush leaves (`Flushes`).

A failure of the database is a schedule that says which of the coming statements the driver refuses; every method is proved for every schedule.

`Witness` gives a small graph and document that meet the hypotheses of the batching, copy and re-import theorems.

**The LSP session** (`Framing`, `Requests`, `Edits`, `Splice`, `Renaming`): the frame reader over bytes, request matching over whole runs, the edit applier against a one-pass reference, and the rename batch against reading every file afresh.

**Smaller cores**: UTF-8 sizing (`Utf16`, `Limits`), the worker pool under every interleaving (`Pool`), the nested static partition (`Partition`).

## Assumptions

- `atomically` gives every table back when its body fails; a driver without atomic units is not modelled.
- `insertSet`, `deleteMembers` and the reads are single set operations: an insert lands all its rows or none. The model allows the driver to refuse any of them.
- `propertyFtsRows` yields at most one row per property, none for an empty text, keyed by the signed property id. The text itself is opaque.
- Where an id must be positive a theorem says so. The streamed load and the collision check need nothing of the kind; each states the exact condition under which it keeps its promise. `max(id) ?? 0` cannot tell a graph whose greatest id is 0 from an empty one (`Cursors.CollisionCheckIsComplete`, `Cursors.ZeroIdDefeatsTheSkip`), and the signed index keys of a vertex property and an edge property meet when their ids are negations of each other (`Streaming.UndoRestoresExactly`, `NegativeIds.NegativeIdLosesIndexRow`). A replace takes stored and supplied ids to be positive.
- A streamed load's token is new to the journal, and no other writer is at work between its batches.
- The rename batch has no outside writer on its files; what the server answers is arbitrary.
- The pool's only caller passes a limit of at least 1 (`scripts/test-all.ts:123`); `Pool.QuietIsComplete` says what a limit of zero or less would do: run nothing and return empty slots.
- A query of the partition benchmark has the same outcome on whichever thread runs it.

## Where code and documentation disagree

- `scripts/lsp.ts:181-182` says two insertions at one point do not swap. They do: the sort is stable and the later one is applied first, in front. `Splice.ListOrderExactlyWhen` says when the text is still that of list order.

## Model

| member | source | states |
|---|---|---|
| StreamedLoads.LoadStreaming | src/bulk.ts:719-730 | All or nothing, for every call sequence, batch size and point of failure (source, call, batch flush, last flush, any refused statement): success commits exactly the streamed batches, one row per element and property given, and leaves no journal row; every failure leaves every table as it was, exactly unless a landed property is opposed to an indexed one of the other kind (which the calls show beforehand, and positive property ids rule out), and unless the driver refuses the undo itself, which can then be run later. Without refusals it fails only if the source raises or a batch cannot land. |
| StreamedLoads.Drive | src/bulk.ts:719-726 | Feeding a loader call by call leaves exactly what the specification of the remaining calls continues from. |
| StreamedLoads.BatchingLoader.constructor | src/bulk.ts:664-673 | A new load starts with nothing held and the graph as found. |
| StreamedLoads.BatchingLoader.Vertex | src/bulk.ts:675-681 | One vertex call is one step of the load, cutting the batch when it is full; an error leaves the load undoable. |
| StreamedLoads.BatchingLoader.Edge | src/bulk.ts:676-681 | The same for an edge call. |
| StreamedLoads.BatchingLoader.Tick | src/bulk.ts:678-681 | The batch is cut exactly when the count reaches the batch size. |
| StreamedLoads.BatchingLoader.Cut | src/bulk.ts:684-687 | The batch lands whole and a loader with cursors read afresh takes over; what has landed stays exactly what the journal undoes. |
| StreamedLoads.BatchingLoader.Done | src/bulk.ts:699-705 | The last batch and the clearing of the journal are one unit; a second call does nothing. |
| StreamedLoads.BatchingLoader.Abort | src/bulk.ts:709-713 | Undoes what the load has journaled, as specified; does nothing once finished. |
| StreamedLoads.BatchCommits | src/bulk.ts:699-705 | Committing leaves keys, references and index intact and the journal as it was before the load. |
| StreamedLoads.UndoneExactly | src/bulk.ts:648-654 | After any prefix of a load has landed, its undo gives back the graph exactly when no landed property is opposed, and always when the calls supply none that may be. |
| Streaming.UndoRestoresExactly | src/bulk.ts:648-654 | Undoing the journal of a load, or sweeping all journals when none existed before it, gives back exactly the graph before the load if and only if no landed property has the negated id of an indexed property of the other kind; every table but the index comes back in any case. |
| Streaming.UndoRestoresNodes | src/storage.ts:311-313 | The undo removes exactly the nodes, labels, properties and cardinalities that are new. |
| Streaming.UndoRestoresEdges | src/storage.ts:304-307 | The undo removes exactly the new edges and edge properties and the load's journal rows. |
| Streaming.UndoRestoresIndex | src/storage.ts:305-308 | The undo's two seeks leave exactly the old index if and only if no landed property is opposed. |
| Streaming.OldIndexRow | src/storage.ts:305-308 | An old index row has the signed rowid of a landed property exactly when that property is opposed to the one it indexes. |
| Streaming.SeeksReachNew | src/storage.ts:305-308 | The signed seeks reach an index row exactly when it belongs to a new property. |
| Streaming.BatchExtends | src/bulk.ts:382-391 | Landing one more batch keeps the journal exact: every new row belongs to a node or edge journaled under the load, and no old one does. |
| Streaming.ClearForgets | src/storage.ts:316-318 | Clearing a finished load's journal removes its rows and no others. |
| NegativeIds.NegativeIdLosesIndexRow | src/formats/graphson.ts:239-239 | A vertex property that a source gives id -5 and an empty value lands, and undoing its load takes edge property 5, which was there before, out of the index. |
| Origins.BatchIsTraced | src/bulk.ts:321-341 | Every property a batch lands was supplied by one of its calls, under its own id or one the load may mint. |
| Origins.OpposedIsSupplied | src/bulk.ts:321-341 | A landed property that is opposed was supplied with an empty index text, under the negated id of a stored indexed property of the other kind or with an id still to be minted that could reach it: the calls show it before the load. |
| Origins.PositiveIsUnopposed | src/storage.ts:305-308 | Where stored and supplied property ids are positive no property can be opposed. |
| Committed.StreamCommitsAll | src/bulk.ts:656-714 | A committed load holds as many more vertices, edges and properties as it was given, whatever the batch size. |
| Committed.AddTallies | src/bulk.ts:265-341 | Every call buffers one element and one row per property. |
| Committed.LandTallies | src/bulk.ts:363-395 | A flush lands every buffered row once. |
| Store.GraphStore.RollbackBulkLoads | src/storage.ts:300-313 | Nine deletes run in order, each on what the last one left, are the undo as stated on the tables before the first. |
| Store.UndoInOrder | src/storage.ts:304-312 | No earlier delete changes what a later one removes. |
| Store.GraphStore.Undo | src/storage.ts:287-287 | The undo as one atomic unit: whole, or not at all. |
| Store.GraphStore.SweepOrphans | src/storage.ts:283-287 | Opening a store undoes every load still journaled; with an empty journal it changes nothing. |
| Store.NothingToSweep | src/storage.ts:287-287 | With nothing journaled the undo would change nothing, so skipping it is sound. |
| Store.RollbackKeepsUnique | src/storage.ts:300-313 | The undo keeps every UNIQUE key. |
| Store.GraphStore.ClearBulkJournal | src/storage.ts:316-318 | Removes one load's journal rows only. |
| Store.GraphStore.Restore | src/storage.ts:345-347 | A failed atomic unit gives every table back. |
| Store.GraphStore.InsertNodes | src/storage.ts:96-97 | All the rows or none: refused by a repeated id or uid, or by the driver. |
| Store.GraphStore.InsertLabels | src/storage.ts:107-109 | All the rows or none: a vertex carries a label once. |
| Store.GraphStore.InsertVProps | src/storage.ts:124-126 | All the rows or none: property ids are unique. |
| Store.GraphStore.InsertEdges | src/storage.ts:136-139 | All the rows or none: refused by a repeated id or uid. |
| Store.GraphStore.InsertEProps | src/storage.ts:145-147 | All the rows or none: one property per edge and key. |
| Store.GraphStore.InsertFts | src/bulk.ts:395-395 | All the rows or none: index rowids are unique. |
| Store.GraphStore.InsertJournal | src/storage.ts:268-270 | All the rows or none: an element is journaled once per load. |
| Store.GraphStore.FindVertex | src/bulk.ts:609-611 | A number is looked up by rowid, a string by its stored uid. |
| Store.GraphStore.NodesWithUid | src/bulk.ts:504-506 | The stored rowids of the wanted uids, and of no others. |
| Store.GraphStore.EdgesWithUid | src/bulk.ts:504-506 | The same for edges. |
| Store.GraphStore.LeastTaken | src/bulk.ts:583-586 | The least wanted value already stored, if any is. |
| Store.Greatest | src/bulk.ts:236-238 | The greatest id of a table, 0 for an empty one. |
| BulkLoading.BulkLoader.constructor | src/bulk.ts:222-234 | A loader built from the four maxima is a fresh one. |
| BulkLoading.OpenLoader | src/bulk.ts:222-238 | Reads the four maxima and starts a fresh loader, or is refused and changes nothing. |
| BulkLoading.BulkLoader.AddLabels | src/bulk.ts:286-286 | One label row per distinct label name, in first-seen order; ReplaceBatch.LabelRowsShape says which rows those are. |
| ReplaceBatch.LabelRowsShape | src/bulk.ts:286-286 | The label rows of a vertex are one for every name it lists, and no others. |
| ReplaceBatch.PropRowsTell | src/bulk.ts:321-341 | Property rows are the listed properties in order: owner, key, value, meta bag, and the rowid where one is given. |
| BulkLoading.BulkLoader.VertexProperty | src/bulk.ts:321-341 | One property row, the cursor past it, and its index row if it has text. |
| BulkLoading.BulkLoader.EdgeProperty | src/bulk.ts:321-341 | The same for an edge; a meta-property is an error. |
| BulkLoading.BulkLoader.AddVertexProps | src/bulk.ts:287-288 | Every property in order, each minted id past every id before it. |
| BulkLoading.BulkLoader.AddEdgeProps | src/bulk.ts:315-316 | The same for an edge, an error exactly when some property carries a meta bag. |
| BulkLoading.BulkLoader.BufferVertex | src/bulk.ts:277-290 | Buffers one vertex's rows; the node row only if it is new. |
| BulkLoading.BulkLoader.Vertex | src/bulk.ts:265-272 | A vertex call: rowid and uid by policy, cursor bumped, rows buffered; raw under replace. |
| BulkLoading.BulkLoader.BufferEdge | src/bulk.ts:304-318 | Resolves an edge when both ends are known, defers it otherwise. |
| BulkLoading.BulkLoader.Edge | src/bulk.ts:294-300 | An edge call, the same way. |
| BulkLoading.BulkLoader.AssertFree | src/bulk.ts:571-588 | Fails exactly when a claimed value is stored, naming the least. |
| BulkLoading.BulkLoader.AssertNoCollisions | src/bulk.ts:558-569 | The whole check: a collision names the least clash of the first table and column, nodes before edges and ids before uids, that has one. |
| BulkLoading.BulkLoader.ResolveEndpoint | src/bulk.ts:606-615 | The memo first, then the store, remembered. |
| BulkLoading.BulkLoader.ResolvePending | src/bulk.ts:376-381 | Resolves the deferred edges in order; the first unknown endpoint fails the batch. |
| BulkLoading.BulkLoader.LandVertices | src/bulk.ts:368-371 | Nodes, labels and vertex properties, in foreign-key order. |
| BulkLoading.BulkLoader.LandEdges | src/bulk.ts:382-395 | Edges, journal, edge properties and the index, in order. |
| BulkLoading.BulkLoader.LandRows | src/bulk.ts:368-408 | The landing as specified, with the specification's first error. |
| BulkLoading.BulkLoader.MatchUids | src/bulk.ts:507-512 | Each stored uid is matched back to every spelling that asked for it. |
| BulkLoading.BulkLoader.ExistingVertexUids | src/bulk.ts:501-513 | For each uid, the vertex the store would find. |
| BulkLoading.BulkLoader.ExistingEdgeUids | src/bulk.ts:501-513 | For each uid, the edge the store would find. |
| BulkLoading.BulkLoader.ReplaceVertex | src/bulk.ts:438-450 | One deduplicated vertex: matched keeps its rowid and row, unmatched is created. |
| BulkLoading.BulkLoader.ReplaceVertices | src/bulk.ts:429-451 | The vertex pass over one batched read equals looking each key up. |
| BulkLoading.BulkLoader.ReplaceEdge | src/bulk.ts:470-482 | One deduplicated edge: buffered afresh under its number, or a minted rowid, its match marked for deletion. Connections.ImportConnectsEdges and KeylessEdgesLand say where it lands. |
| BulkLoading.BulkLoader.ReplaceEdges | src/bulk.ts:463-482 | The edge pass, the same way. |
| BulkLoading.BulkLoader.WipeVertexChildren | src/bulk.ts:517-523 | Removes what the matched vertices own and keeps their rows and edges. |
| BulkLoading.BulkLoader.WipeEdges | src/bulk.ts:526-531 | Removes the matched edges whole. |
| BulkLoading.BulkLoader.ResolveReplace | src/bulk.ts:428-486 | Dedup, match, wipe: the whole replace resolution, with its first error. |
| BulkLoading.BulkLoader.LandBatch | src/bulk.ts:363-409 | What a flush does inside its unit. |
| BulkLoading.BulkLoader.Flush | src/bulk.ts:355-361 | One atomic unit: the batch landed (and the journal cleared) as specified, or every table as it was; it fails without a refusal only when the batch cannot land. |
| Cursors.FeedKeepsAhead | src/bulk.ts:265-341 | After any calls each cursor exceeds every stored and buffered rowid. |
| Cursors.FreshIsAhead | src/bulk.ts:222-234 | The cursors of a fresh loader exceed every stored rowid. |
| Cursors.MintedIdIsNew | src/bulk.ts:255-260 | In any append-mode run a vertex or an edge (resolved or deferred) that takes a minted rowid takes one that nothing stored or buffered in its table has. |
| Cursors.CollisionCheckIsComplete | src/bulk.ts:558-588 | On a loader's first flush into any graph in which 0 is not the greatest id, negative ids included, the check, or its empty-target skip, passes exactly when no landed id or uid is stored, under every id policy; a failure names the least clash of the first table and column that has one. |
| Cursors.ClashIsReported | src/bulk.ts:363-367 | A first flush that would clash is refused by the check, before any insert, with that error. |
| Cursors.LeastIsDetermined | src/bulk.ts:577-586 | What a refusal names is determined by the clash alone: the least number, or the text whose bytes come first. |
| Cursors.ZeroIdDefeatsTheSkip | src/bulk.ts:231-233 | In every graph in which 0 is the greatest id some one-element batch under preserve clashes and passes the check: the condition is exact. |
| Cursors.AssertFreeDecides | src/bulk.ts:571-588 | The MIN query fails exactly on a clash and names its least value. |
| FullText.FlushKeepsIndex | src/bulk.ts:355-396 | The index stays the exact image of the two property tables over every successful flush, append or replace (SearchFinds and RowOfProperty say what that means to a reader). |
| FullText.SearchFinds | src/services/fts-index.ts:71-76 | In an indexed graph a search for a text among the elements of one kind finds a property of an owner exactly when that property has that text; the empty text is never found. |
| FullText.RowOfProperty | src/services/fts-index.ts:71-76 | The row a property's signed rowid leads to holds its own kind, id, owner, key and text. |
| FullText.WipeVerticesKeepsIndex | src/bulk.ts:517-541 | Wiping index rows through the properties, before the properties, leaves the image of what stays. |
| FullText.WipeEdgesKeepsIndex | src/bulk.ts:526-541 | The same for edges, whose index rowids are negated ids. |
| FullText.FtsRowsAreIndex | src/bulk.ts:340-340 | The buffered index rows are the image of the buffered properties. |
| FullText.FeedInStep | src/bulk.ts:321-341 | Buffered index and buffered properties stay in step over any calls. |
| Consistency.FlushKeepsConsistent | src/bulk.ts:355-409 | UNIQUE keys, references, the index and positive property ids survive every successful flush. |
| Consistency.AppendKeepsIntact | src/bulk.ts:363-395 | In append mode keys, references and index survive every successful flush with no hypothesis on property ids. |
| Consistency.FeedIsSound | src/bulk.ts:265-318 | Buffers refer only to rows the store or the batch holds, whatever ids the calls carry. |
| Consistency.ResolveReplaceIsSound | src/bulk.ts:428-486 | Resolving a replace batch keeps both. |
| Consistency.LandRowsKeepsReferences | src/bulk.ts:368-395 | Every landed reference names a landed or stored row. |
| Flushes.FeedFailsOnMeta | src/bulk.ts:326-335 | Feeding an append loader fails exactly at an edge that carries a meta-property. |
| Flushes.ReplaceFailsOnMeta | src/bulk.ts:326-335 | Under replace the edge pass fails exactly when some deduplicated edge carries one. |
| Flushes.UnknownEndIsNamed | src/bulk.ts:606-615 | A batch that cannot resolve its deferred edges names the first unknown end, the source before the target. |
| Flushes.FlushEmpties | src/bulk.ts:402-407 | A flush leaves nothing waiting to be landed. |
| Flushes.FlushRemembers | src/bulk.ts:376-408 | After a flush an append loader still stands by every id it remembered, and its cursors are where they were. |
| Flushes.FlushTwice | src/bulk.ts:355-408 | A second flush with nothing added since succeeds and changes neither the tables nor the loader, under either policy. |
| Dedupe.DedupeByKey | src/bulk.ts:164-174 | The loop over its map returns the deduplicated batch. |
| Dedupe.DedupedMeaning | src/bulk.ts:161-174 | Keys pairwise distinct, each with its last definition, in first-seen order, then every keyless item in order. |
| Dedupe.LastWriteWins | src/bulk.ts:166-172 | A key is kept exactly when some item carries it, with the last one given. |
| Dedupe.FirstSeenOrder | src/bulk.ts:166-173 | Kept keys are ordered by first occurrence. |
| Dedupe.NumbersAndStringsStayApart | src/bulk.ts:171-171 | In any batch that carries the number n and a string, whatever its spelling, both are kept, each with its own last definition. |
| Dedupe.DedupAbsorbs | src/bulk.ts:164-174 | On keyed items, deduplicating a prefix first changes nothing. |
| BatchingTheorem.BatchingRefinesOneFlush | src/bulk.ts:656-714 | Under preserve, for any batch size, streaming and one flush both fail or both leave what landing the elements one at a time leaves, for streams whose edges follow their vertices and whose ids are distinct as strings. |
| BatchingTheorem.FlushIsFold | src/bulk.ts:363-409 | One flush is a fold of element-by-element landing, and its result can start the next batch. |
| BatchingTheorem.StreamFrom | src/bulk.ts:684-687 | The same from any point of a stream, with any elements held. |
| BatchingTheorem.NoClashWhenUnique | src/bulk.ts:558-569 | If landing one at a time keeps the keys unique, the collision check passes. |
| BatchingProof.FeedSimulates | src/bulk.ts:265-318 | The buffers hold exactly what landing the same elements one at a time adds, and a carried cursor equals one read afresh. |
| BatchingProof.ResolveIsLookup | src/bulk.ts:376-381 | Resolving deferred edges through the memo is looking their ends up in the store. |
| KeylessBatches.ReplaceRefinesUpserts | src/bulk.ts:428-486 | A replace batch leaves the same nodes, labels and property contents as upserting its keyed definitions in order, and beside them exactly one new vertex, showing its definition, for each vertex without an id; for numeric and string keys naming distinct vertices. |
| KeylessBatches.MintedReplaceRefinesUpserts | src/bulk.ts:428-486 | The same with nothing assumed of the sequential run, when property ids are minted. |
| Upserts.UpsertsSucceed | src/bulk.ts:428-451 | Upserting definitions with minted property ids never fails and keeps the graph consistent. |
| ReplaceBatch.ReplaceKeepsTheRest | src/bulk.ts:133-140 | For any batch, keyless vertices included, every stored node row stays, so matched vertices keep their rowids, and a stored vertex no key of the batch names keeps everything it owns. |
| ReplaceBatch.ReplaceKeepsEdges | src/bulk.ts:136-137 | Replacing vertices leaves every edge and edge property as it was. |
| ReplaceBatch.DescriptionDetermines | src/bulk.ts:428-486 | Two graphs that show each key's last definition and leave the rest untouched are the same up to property rowids. |
| KeylessBatches.MixedIsDescribed | src/bulk.ts:428-486 | A replace flush shows the last definition of every key, and one new vertex per keyless definition; every other vertex is as it was. |
| ReplaceBatch.UpsertsAreDescribed | src/bulk.ts:133-140 | So do sequential upserts. |
| SecondImport.ReimportChangesNothing | src/bulk.ts:133-140 | Importing the same keyed document a second time under replace succeeds and leaves the same vertices, labels, properties and edges as once, up to property rowids and re-minted edge rowids. |
| SecondImport.SecondImportSucceeds | src/bulk.ts:363-409 | A second import of a document that was imported once cannot fail: every key it lands again is free. |
| Reimport.SecondImportSame | src/bulk.ts:133-140 | The two graphs agree vertex by vertex and edge by edge. |
| Reimport.FeedingIsTheDocument | src/bulk.ts:265-266 | Under replace, calls only collect the document. |
| Reimport.ImportIsImportable | src/bulk.ts:133-140 | An imported graph meets the hypotheses of a second import. |
| Reimport.ImportDescribesEdges | src/bulk.ts:463-485 | After an import exactly the document's edges carry its keys, each with its rowid, uid and properties; edges without an id are new, and all rowids differ. |
| Connections.ImportConnectsEdges | src/bulk.ts:425-482 | Each deduplicated edge of an imported document, keyed or not, is one row under a rowid no other edge has, with its label, between the vertices its ends name in the resulting graph: matched, minted or stored. The document's vertices, too, may come with an id or without. |
| Connections.KeylessEdgesLand | src/bulk.ts:470-482 | For each edge without an id an import leaves one row more: its rowid was not stored and is no other edge's, it has no uid, its label, the ends its source and target name, and exactly its properties. |
| Connections.MemoAgreesAfter | src/bulk.ts:425-451 | Every source id the vertex pass remembers names, in the imported graph, the vertex it is remembered under. |
| Isomorphism.FlushLandsACopy | src/bulk.ts:255-318 | Under each id policy and any order of calls, a flush lands every vertex given, with or without an id, under a rowid of its own with exactly its labels (by name) and properties (key, value, meta bag); the source ids map injectively to those rowids; each edge lands once between the images of its ends, resolved early or late; and rowid and uid of both are spelled out per policy: preserve keeps a number as rowid and a string as uid, remap keeps either as uid, renumber keeps neither. |
| Isomorphism.ImagesAreTheirs | src/bulk.ts:294-318 | Edge for edge, the landed rows have the name, the ends and the rowid and uid the policy gives. |
| Isomorphism.MemoIsRowids | src/bulk.ts:285-285 | The endpoint map holds exactly the vertices fed so far, each at its own rowid. |
| Isomorphism.DeferredAreImages | src/bulk.ts:376-381 | A deferred edge lands between the same images as one resolved at once. |
| Limits.Utf8Bytes | src/do-limits.ts:40-54 | The count is the length of the RFC 3629 encoding, a lone surrogate counting as U+FFFD. |
| Limits.ThreeBytesPerUnit | src/do-limits.ts:34-36 | Between one and three bytes per unit. |
| Limits.Utf8Additive | src/do-limits.ts:47-50 | Additive over concatenation, less 2 exactly when a pair is split. |
| Limits.FitsUtf8 | src/do-limits.ts:34-36 | The short cut answers exactly whether the encoding fits. |
| Limits.ValueBytes | src/cf-limits.ts:60-66 | 0 for a text that fits, else its exact size. |
| Limits.FindViolation | src/cf-limits.ts:35-46 | No violation exactly when bind count, text size and every bind size are within the caps; otherwise the first one, with its figure. |
| Utf16.DecodeUndoesEncode | src/do-limits.ts:38-39 | The UTF-8 encoding decodes back to the code points. |
| Utf16.WellFormedKeepsScalars | src/do-limits.ts:38-39 | Writing a text well-formed keeps what a reader sees. |
| Utf16.WellFormedHasNoLoneSurrogate | src/do-limits.ts:38-39 | No surrogate of the well-formed spelling lacks its other half. |
| Utf16.ScalarsSpellWellFormed | src/do-limits.ts:38-39 | The code points a reader sees, written in UTF-16 again, are the well-formed spelling. |
| Utf16.DecimalReadsBack | src/bulk.ts:258-258 | A number can be read back from its decimal spelling. |
| Framing.Reader.Receive | scripts/lsp.ts:82-99 | One chunk delivers exactly the messages it completes; the inner loop ends because the buffer shrinks. |
| Framing.Reader.Read | scripts/lsp.ts:79-100 | Reading a stream in chunks delivers what reading it whole would, also when it is malformed. |
| Framing.DrainInTwo | scripts/lsp.ts:84-99 | Reading in two parts is reading the whole, for any bytes. |
| Framing.HeaderLengthIsFirst | scripts/lsp.ts:88-88 | The length a header announces is the longest run of digits behind its first field, wherever that stands. |
| Framing.SepAtIsFirst | scripts/lsp.ts:86-86 | The blank line a header ends at is the first one. |
| Framing.DeliversWhatArrived | scripts/lsp.ts:84-99 | After any number of bytes, under any chunking, exactly the messages that have arrived whole are delivered, in order; the buffer is a proper prefix of one frame. |
| Framing.SomeFramesHeld | scripts/lsp.ts:84-99 | Every prefix of a stream holds some frames whole and part of the next. |
| Framing.WrittenIsSound | scripts/lsp.ts:67-71 | The writer's header announces its body and ends at the first blank line. |
| Framing.ReadingUndoesWriting | scripts/lsp.ts:67-100 | Every list of messages written is read back, under every chunking. |
| Framing.FrameIsNext | scripts/lsp.ts:86-91 | A whole frame in front is the next message whatever its body holds and whatever follows. |
| Framing.PartOfFrameIsNotNext | scripts/lsp.ts:87-89 | Less than a whole frame delivers nothing. |
| Requests.Session.Ask | scripts/lsp.ts:74-75 | Sends a request under the next id and waits for it. |
| Requests.Session.Dispatch | scripts/lsp.ts:92-97 | Answers a server request; hands a response to the request waiting for it. |
| Requests.IdsAreNeverReused | scripts/lsp.ts:74-75 | Over any run the requests carry 1, 2, 3, …. |
| Requests.SaysWhatWasMeant | scripts/lsp.ts:74-76 | The requests and notices sent are those asked for, each with its own method and the next number, once each and in order. |
| Requests.ResolvedByFirstAnswer | scripts/lsp.ts:95-97 | A request is resolved with a message exactly when that is the first response with its id to arrive after it was sent. |
| Requests.ResolvedAtMostOnce | scripts/lsp.ts:96-97 | No request is resolved twice, and a resolved one is no longer pending. |
| Requests.PendingMeaning | scripts/lsp.ts:72-97 | Pending is sent and not answered. |
| Requests.ServerRequestsAreAnswered | scripts/lsp.ts:92-95 | Exactly the server's requests are replied to, in order. |
| Requests.ServerRequestDoesNotResolve | scripts/lsp.ts:95-97 | A server request with the id of a waiting request is answered and leaves it waiting. |
| Edits.LineTable | scripts/lsp.ts:170-171 | The loop builds the line table. |
| Edits.LineStartsMeaning | scripts/lsp.ts:168-171 | The table starts at 0, strictly increases, and holds exactly the offsets behind a newline. |
| Edits.Offset | scripts/lsp.ts:172-178 | An unknown line is an error; a character past the end is clamped. |
| Edits.OffsetStaysOnLine | scripts/lsp.ts:175-177 | An offset never leaves the line its position names: it is the character's own, or the line's end for a character past it. |
| Edits.OnePositionPerOffset | scripts/lsp.ts:168-178 | Every offset has exactly one in-line position. |
| Edits.ApplyToText | scripts/lsp.ts:167-195 | Resolve, sort, check, apply: the text, or the first error met in that order. |
| Splice.AppliedExactlyWhenApart | scripts/lsp.ts:180-190 | A list is accepted exactly when every line exists, no range is inverted and every two ranges fit. |
| Splice.RefusedBecause | scripts/lsp.ts:172-190 | Why a list is refused: a missing line before anything else, then the first span in the order of application that is inverted or overlaps the one before it. |
| Splice.AdjacentDecidesPairs | scripts/lsp.ts:184-190 | In sorted order the look at neighbours decides every pair. |
| Splice.LastFirstSorts | scripts/lsp.ts:181-183 | The sort orders by the comparator, keeps every span and keeps equals in list order. |
| Splice.AppliedAtOnce | scripts/lsp.ts:192-194 | Applying last first is one left-to-right pass over the original text, gaps untouched; the length changes by what the edits add and remove. |
| Splice.OrderDoesNotMatter | scripts/lsp.ts:167-195 | Any rearrangement of an accepted list is accepted, and gives the same text if no two insertions share an offset. |
| Splice.ListOrderExactlyWhen | scripts/lsp.ts:181-183 | Insertions that share an offset come out in reverse list order, against the comment and LSP 3.17; the text is that of list order exactly when at every offset both orders read the same. |
| Splice.TwoInsertionsSwap | scripts/lsp.ts:181-183 | Inserting "a" then "b" into an empty text gives "ba". |
| Renaming.Session.Open | scripts/lsp.ts:115-123 | Returns the file's text, cached or read and told to the server. |
| Renaming.Session.Resync | scripts/lsp.ts:125-136 | Cache and server move together to what is on disk; versions increase. |
| Renaming.PushedAppends | scripts/lsp.ts:119-133 | A document is opened once before it changes, and versions strictly increase. |
| Renaming.ApplyEdits | scripts/lsp.ts:154-160 | For the files of a map: on success every named file was on disk and holds exactly what its edits make of it; on failure there is a first entry that cannot be written, those before it are written so; every other file is as it was. |
| Renaming.WrittenMeaning | scripts/lsp.ts:154-160 | The same of the specification the method is tied to. |
| Renaming.EachRenameWrites | scripts/rename-batch.ts:84-103 | In a batch an applied rename writes every file its answer names with the edits made and no other, one that raises writes those before the entry that cannot be written, any other writes nothing; each counts once, as applied, failed or raised. |
| Renaming.ComputeRename | scripts/rename-lib.ts:63-80 | Positions are resolved against the text on disk. |
| Renaming.Candidates | scripts/rename-lib.ts:29-44 | With a planned position, that position if the name stands there; without one, whole-word occurrences only, and every one of them but those that start inside an offered one. |
| Renaming.SpellsInText | scripts/rename-lib.ts:33-34 | A name stands at a position exactly when the text spells it from the position's offset on, all on its line. |
| Renaming.EveryMatchFound | scripts/rename-lib.ts:29-44 | For a name of word characters no whole-word occurrence on a line is passed over. |
| Renaming.ComputeTakesFirst | scripts/rename-lib.ts:47-79 | Candidates ascend by line and along a line without overlap; a rename is made at the first one the server accepts; it fails exactly when the server accepts none, answers with an error, or names no edit in any file. |
| Renaming.CandidatesAscend | scripts/rename-lib.ts:41-43 | Candidates are offered by line, and along a line each behind the one before. |
| Renaming.ResyncAll | scripts/rename-batch.ts:103-103 | After the pushes nothing the session holds is stale. |
| Renaming.RenameBatch | scripts/rename-batch.ts:78-106 | Cache, server and disk agree at the start of every rename, so the batch does what renaming one by one against freshly read files does; a dry run writes nothing. |
| Renaming.RenameOne | scripts/rename-batch.ts:78-106 | One rename of a batch does what computing it on the file as it is on disk and writing it does, and leaves cache, server and disk in agreement. |
| Renaming.CountsAddUp | scripts/rename-batch.ts:84-113 | A batch that ran to its end tried every rename, and without keep-going none failed. |
| Renaming.StoppedAtFirstFailure | scripts/rename-batch.ts:84-92 | A stopped batch stopped at its first failure with exactly the renames before it applied: the rest is the resume point. |
| Pool.EveryRunIsValid | scripts/test-all.ts:96-108 | Under every interleaving tasks start in order, each once, and a started task is in flight with one worker or has its own result in its slot. |
| Pool.AtMostLimit | scripts/test-all.ts:106-106 | Never more tasks in flight than the limit or than there are. |
| Pool.StepsAreFew | scripts/test-all.ts:99-104 | Every finished task fills one slot, so every run ends. |
| Pool.QuietIsComplete | scripts/test-all.ts:106-107 | When nothing is in flight every slot holds its own task's result, exactly if there was a worker or nothing to do. |
| Pool.RunPool | scripts/test-all.ts:96-108 | The pool, for whichever task finishes next: it ends, with every result in its slot when the limit is positive. |
| Partition.OnePartEach | scripts/l5-pool-bench.ts:83-94 | Every index of a slice lies in exactly one part of its ceil-division cut, and the parts hold nothing else. |
| Partition.OneThreadEach | scripts/l5-pool-bench.ts:146-153 | Every query runs on exactly one thread of exactly one process, for all sizes. |
| Partition.PartsAddUp | scripts/l5-pool-bench.ts:83-94 | The parts' tallies, in any order of arrival, sum to the slice's. |
| Partition.OneQuery | scripts/l5-pool-bench.ts:107-112 | A slice of one query tallies that query's own outcome. |
| Partition.SumInTwo | scripts/l5-pool-bench.ts:107-112 | Two runs one after the other tally what one run of both does. |
| Partition.RunSlice | scripts/l5-pool-bench.ts:107-112 | A worker tallies its slice. |
| Partition.RunThreadPool | scripts/l5-pool-bench.ts:83-97 | The pool resolves once, when the last thread reports, with the slice's tally. |
| Partition.RunProcs | scripts/l5-pool-bench.ts:146-165 | The whole sweep counts what one sequential run counts. |

## Left out

- BulkLoading.BulkLoader.Flush: after a failed flush the loader's own buffers are unspecified, because the source neither resets them nor promises a retry; a second flush of a loader that started on an empty graph is not covered by the collision check's theorem.
- KeylessBatches.ReplaceRefinesUpserts: with explicit property ids it takes the sequential run to succeed, because a superseded definition may carry an id that clashes only one by one; with minted ids KeylessBatches.MintedReplaceRefinesUpserts needs no such hypothesis. It speaks of vertices; for edges there is no sequential run to compare with, and Connections.ImportConnectsEdges and Reimport.ImportDescribesEdges say directly what an import leaves of them.
- BatchingTheorem.BatchingRefinesOneFlush: stated for `preserve` only, since under the minting policies a numeric endpoint of an earlier batch is looked up as a rowid.
- Streaming.UndoRestoresExactly: the sweep of every journal is covered for one load in flight at a crash, the way a store is used; several interleaved loads are not.
- StreamedLoads.LoadStreaming: the source of a load calls the loader and lets its errors through; one that swallows an error and goes on is not modelled.
- Label interning: label rows carry the name. Interned names stay after a rollback in the original and have no counterpart here; labels and property keys are taken as well-formed texts.
- gid, rev, seq and dirty columns, `refreshElements`, tombstones and replication.
- The split of property rows into scalar and collection statements, and the encoding of values: a value is opaque text with its type tag.
- Statement and element counts (`BulkStats`), and the text of error messages beyond the values they name.
- Chunking of a large set into several statements (`json-chunks.ts`).
- `CfLimitedSql` and `describe`: the decorator forwards what `Limits.FindViolation` lets through.
- JSON parsing and the opening handshake of an LSP session; a delivered message is its body. A header's length is exact, not rounded to a double.
- Plan-file parsing, console reports and exit codes of the rename batch; `uriOf`, `relOf` and `editsOf`.
- A pool task that rejects.
- Process spawning, timing and memory figures of the benchmark.
- The Gremlin parser, compiler, SQL lowering, packaging and the regex-based repository gates.
