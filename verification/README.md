# Yeomna in Dafny

A verification project for the algorithms and protocols of Yeomna, a store that ingests documents and code
into a graph, embeds them, and serves the graph over MCP. It models what the Rust and Python code does
and proves what the code, its tests and its documentation promise. `dafny verify dfyconfig.toml` checks
everything.

| file | what it models |
|---|---|
| `CanonicalJson`, `CanonicalJsonLaws`, `Json` | the order-insensitive JSON encoder that feeds digests, the C++ digest input, and a JSON reader that undoes the encoder |
| `EditDistance` | the two-row edit distance behind command suggestions |
| `UseTrees` | the `use`-tree printer and the brace expander that undoes it |
| `McpServer`, `McpAnswers` | the MCP server loop: concurrent handlers, cancellation, id reuse, panics, the drain |
| `Batch`, `BatchOutcomes` | the resumable batch processor: permits, joins in any order, panics, crashes, checkpoints across runs |
| `EmbedClient` | the embedding client that halves batches on out-of-memory and reassembles by index |
| `Store`, `StoreLaws`, `StoreRepeats`, `StorePayloads` | the store's sink: head rows, the append-only log, savepoints, the lookup memo, batches and their repetition, and what a row holds of its document |
| `DocumentGraph`, `DocumentGraphLaws`, `DocumentGraphFields`, `DocumentGraphPrinter`, `DocumentGraphFences` | the graph-block notation in Markdown, its parser, the meaning of each stanza, the printer the parser undoes, and which lines of a text are blocks |
| `Documents`, `DocumentsLaws`, `DocumentsEdges`, `DocumentsRows` | nodes, then placeholders, then edges: the corpus written to the store |
| `Symbols`, `Codebase` | keys, and the two-pass order of the code ingest |
| `Windows`, `Spans`, `Utf8` | late-chunk windows, and character-to-byte rebasing across the service and its consumer |
| `Sentences` | sentence splitting and greedy packing |
| `Schemas` | the definitions a tool's schema reaches |
| `EdgeOrder`, `Resolvers`, `ResolverLaws`, `ResolverTargets` | cross-file resolution over hash maps walked in any order, and what a use path or a call resolves to |

Code that loops over local state is a method with invariants, proved equal to a function of its inputs,
and the promises are lemmas about that function. Objects with fields (`PgSink`, `BatchState`, `ByteVec`, `GraphBlocks`,
the embedding client) are classes. The MCP server and the batch processor are state machines whose
actions are the atomic steps of their tasks, and the results are about every run. A hash map that is
iterated is the sequence of its entries in the order of the walk.

What the results rest on, because the code does not guarantee it:

- Batch item ids are distinct.
- Edge keys do not collide on the edges at hand, and file keys (symbol keys, for calls) are distinct across files: needed for full edges
  only, not for edge keys. `ResolverLaws.ClashingFilesDependOnOrder` shows two paths that break it.
- Declared ends do not start with a container name and a slash, for the unconditional half of
  `DocumentsEdges.EdgeHasRowIff`; the condition without it is exact.
- A client does not reuse a cancelled id before the old handler exits: needed only for one live request
  per id, and `McpServer.OneLivePerIdIffNoReuse` is exact.
- In `Documents` and `Codebase` the database has no objection of its own to a row; in `Store` it may refuse any.

Findings, each with the lemma that shows it:

- The tail merge of sentence chunking can never fire after a flush (`Sentences.NoMergeAfterFlush`), so `min_chunk_size` has no
  effect on the chunks, although its documentation says it avoids tiny trailing chunks.
- `use` expansion loses a module renamed in its own group, as `crates/yeomna-code/src/python.rs:11` does with
  `{self as parser, ast}` (`UseTrees.ParserImportIsMissed`). It is right exactly for the trees that rename no `self`
  (`UseTrees.ExpandUndoesPrintIff`).
- An overwrite with the payload a row already has may change the row's kind without a log entry
  (`StoreLaws.KindChangesUnlogged`), and that is the only unlogged change (`StoreLaws.UnloggedChangeIff`). It keeps
  `ingested_at`, as the SQL says and a comment beside it denies (`StoreLaws.ClockMovesWithTheLog`).
- Repeating an overwriting batch of nodes is a no-op exactly when documents that land under one key carry one payload
  (`StoreRepeats.RepeatIsNoOpIff`); otherwise each repetition logs again (`StoreLaws.RepeatedKeyKeepsLogging`).
- `late.rs` with a chunk size of zero yields one empty window a token while the hash embedder clamps the size to one
  (`Windows.LoopsAgreeIff`).
- Two paths that differ only in `/` and `.` share a file key and make the resolved edge depend on hash-map order
  (`ResolverLaws.ClashingFilesDependOnOrder`).
- An extra named `declared_kind`, which the notation does not reserve, stands over the kind a node was declared with
  (`DocumentsRows.ExtraOverKind`); otherwise the row says the declared kind (`DocumentsRows.DeclaredKindIff`).
- Clean-up of the in-flight table removes by id and not by instance (`McpServer.ReuseRunExists`).

## Model

| member | source | states |
|---|---|---|
| CanonicalJson.SameBytesIffEqualUpToOrder | crates/yeomna-code/src/canonical_json.rs:5-39 | two values have the same canonical bytes exactly when they are equal up to member order at every depth |
| CanonicalJson.TextSelfDelimiting | crates/yeomna-code/src/canonical_json.rs:11-39 | the text of a value followed by anything that may follow a value determines both: the encoding is self-delimiting through nested arrays, objects and escaped strings |
| CanonicalJson.BytesInjective | crates/yeomna-code/src/canonical_json.rs:5-39 | equal bytes come only from equal canonical values |
| CanonicalJson.CanonicalIffAgree | crates/yeomna-code/src/canonical_json.rs:23-36 | sorting members by key at every depth identifies exactly the values that agree member by member, with any set of keys ignored |
| CanonicalJsonLaws.CanonicalBytesAreJson | crates/yeomna-code/src/canonical_json.rs:5-39 | the bytes are the UTF-8 of a JSON text that a reader of RFC 8259 reads back whole as the value up to member order, with every object's members in byte order |
| CanonicalJsonLaws.ValueReads | crates/yeomna-code/src/canonical_json.rs:11-39 | the text of any value, before anything that may follow it, reads back as that value and leaves the rest |
| CanonicalJsonLaws.LessIsByteOrder | crates/yeomna-code/src/canonical_json.rs:25-26 | keys are ordered as their UTF-8 bytes are |
| CanonicalJsonLaws.ShortestEscape | crates/yeomna-code/src/canonical_json.rs:31-37 | of all the ways JSON allows to write a character in a string the encoder takes a shortest, with lower-case digits |
| CanonicalJson.WriteValue | crates/yeomna-code/src/canonical_json.rs:11-39 | appends exactly the canonical text of the value to the shared output |
| CanonicalJson.WriteArray | crates/yeomna-code/src/canonical_json.rs:13-22 | appends the elements in order between brackets, separated by commas |
| CanonicalJson.WriteObject | crates/yeomna-code/src/canonical_json.rs:23-36 | appends the members in key order whatever order they are held in |
| CanonicalJson.ToVec | crates/yeomna-code/src/canonical_json.rs:5-9 | the UTF-8 of the canonical text |
| CanonicalJson.RemoveMachineLocalPaths | crates/yeomna-code/src/cpp.rs:67-85 | removes every `target_file` at every depth and nothing else |
| CanonicalJson.CppSymbolDigestInput | crates/yeomna-code/src/cpp.rs:61-65 | the canonical bytes of the symbols with every `target_file` removed |
| CanonicalJson.SameDigestInputIffAgree | crates/yeomna-code/src/cpp.rs:61-85 | two values give the same digest input exactly when they agree apart from `target_file` at any depth and member order |
| EditDistance.Distance | crates/yeomna-cli/src/main.rs:390-403 | the two swapped rows compute recursive unit-cost edit distance for all strings |
| EditDistance.FillRow | crates/yeomna-cli/src/main.rs:396-399 | the inner loop turns row i of the distance matrix into row i + 1 in place |
| EditDistance.LevZero | crates/yeomna-cli/src/main.rs:390-403 | the distance is zero only between equal strings |
| EditDistance.LevSymmetric | crates/yeomna-cli/src/main.rs:390-403 | the distance is symmetric |
| EditDistance.LevTriangle | crates/yeomna-cli/src/main.rs:390-403 | the distance satisfies the triangle inequality |
| EditDistance.LevIsLeast | crates/yeomna-cli/src/main.rs:390-403 | the distance is the length of a shortest chain of single-character edits: one of that length exists and none is shorter |
| UseTrees.ExpandUndoesPrintIff | crates/yeomna-code/src/rust_ast.rs:626-637 | expanding a printed use-tree yields exactly what the tree imports, in order, with nested groups, globs, renames and `self`, if and only if no group of the tree renames `self` |
| UseTrees.ExpandPrintedBelowIff | crates/yeomna-code/src/rust_imports.rs:51-99 | the same behind any module prefix |
| UseTrees.ExpandPrintedBelow | crates/yeomna-code/src/rust_imports.rs:51-99 | for every tree, renamed `self` included, the expansion is the text of each leaf behind its modules, in order |
| UseTrees.RenamedSelfIsMissed | crates/yeomna-code/src/rust_imports.rs:80-96 | `root::{self as alias, name}` comes out as `root::self as alias`, where the tree imports `root as alias` |
| UseTrees.ParserImportIsMissed | crates/yeomna-code/src/python.rs:11 | the input in this repository on which the expansion loses an import |
| UseTrees.GroupShrinks | crates/yeomna-code/src/rust_imports.rs:51-99 | on any string, replacing a group by one of its pieces leaves strictly fewer opening braces, so expansion ends |
| UseTrees.FindMatchingBrace | crates/yeomna-code/src/rust_imports.rs:233-248 | finds the brace that closes the one at `start`, or that there is none |
| UseTrees.SplitAtTopLevelCommas | crates/yeomna-code/src/rust_imports.rs:251-274 | splits exactly at the commas outside braces, dropping an empty last piece |
| UseTrees.ExpandUseGroup | crates/yeomna-code/src/rust_imports.rs:51-99 | the loop computes the recursive expansion and terminates on every string |
| UseTrees.ExpandGroup | crates/yeomna-code/src/rust_imports.rs:80-96 | the pieces of a group are expanded in order; `self` stands for the module and is not expanded again |
| McpServer.EveryLineAnsweredRight | crates/yeomna-mcp/src/lib.rs:185-388 | in every interleaving each notification gets no answer, each refused line exactly its one error, each accepted request at most one response, and exactly one by the time `serve` returns unless its own cancel signal was delivered |
| McpAnswers.AnswersFollowTheRun | crates/yeomna-mcp/src/lib.rs:335-369 | in every run an accepted request is answered with exactly the body its handler finished with, with an internal error once a panic is reported, and with nothing if it gave way to a cancellation, which the client had sent under its id after the request |
| McpAnswers.RefusedIffLive | crates/yeomna-mcp/src/lib.rs:296-316 | unless a cancelled id was reused, a request is refused exactly when one under its id is live and was not cancelled, and otherwise started |
| McpServer.NextKeepsInv | crates/yeomna-mcp/src/lib.rs:219-371 | every read, handler step, panic, cancellation and end of input keeps the bookkeeping of answers, permits and the in-flight table |
| McpServer.AtMostEightRun | crates/yeomna-mcp/src/lib.rs:78-135 | permits are conserved and at most eight handlers hold one |
| McpServer.DrainEnds | crates/yeomna-mcp/src/lib.rs:373-388 | after end of input every order of steps is bounded and never stuck before the server has returned |
| McpServer.DrainNeverStuck | crates/yeomna-mcp/src/lib.rs:396-418 | while the drain is on, some task or the return itself can step |
| McpServer.DrainStepCounts | crates/yeomna-mcp/src/lib.rs:396-418 | each step of the drain uses up some of a fixed amount of work |
| McpServer.OneLivePerIdIffNoReuse | crates/yeomna-mcp/src/lib.rs:303-369 | at most one live request per id throughout a run, exactly when the client never reuses an id it cancelled before the old handler has exited |
| McpServer.ReuseRunExists | crates/yeomna-mcp/src/lib.rs:368 | a run with such a reuse in which two requests under one id are alive at once |
| Batch.BatchState.MarkCompleted | crates/yeomna-batch/src/state.rs:90-92 | appends the id to the completed ones and leaves the failed ones as they are |
| Batch.BatchState.MarkFailed | crates/yeomna-batch/src/state.rs:95-97 | records the message under the id |
| Batch.BatchState.SkipSet | crates/yeomna-batch/src/state.rs:100-109 | exactly the completed and the failed ids |
| Batch.StateFile.Save | crates/yeomna-batch/src/state.rs:67-75 | the file holds the state when the save works and is unchanged when it does not |
| Batch.StateFile.Clear | crates/yeomna-batch/src/state.rs:78-87 | the file is gone when the removal works |
| Batch.RecordJoin | crates/yeomna-batch/src/processor.rs:327-402 | marks and saves a joined item, leaves a panicked one out of the checkpoint, and adds its one result |
| Batch.Conclude | crates/yeomna-batch/src/processor.rs:280-297 | the file is removed when no result failed and holds the final state when one did |
| Batch.EveryInterleaving | crates/yeomna-batch/src/processor.rs:185-318 | in every interleaving of a run, complete or cut, permits are conserved, at most `concurrency` are held, and the completed and failed ids stay disjoint in the state and in the file; a summary has one result per item, completed + failed + skipped is the total plus the skipped failures, and errors number the failures |
| BatchOutcomes.ResultsFollowTheRun | crates/yeomna-batch/src/processor.rs:185-269 | in every run each item the loop has passed has one result once joined: a success exactly when its process function succeeded, else stage "processing" or "spawn" with the message; a joined success is among the completed ids and a joined failure among the failed ones under its message; a skipped item repeats what the file said |
| BatchOutcomes.SummaryFollowsTheRun | crates/yeomna-batch/src/processor.rs:280-318 | a summary counts as completed the items whose process function succeeded, as failed those that failed, panicked or were failures of the file, as skipped those of the file; and no file is left exactly when none is failed |
| BatchOutcomes.SavedOutcomeSurvives | crates/yeomna-batch/src/processor.rs:327-402 | wherever a run is cut, each outcome whose join was saved is in the file |
| Batch.RunsEnd | crates/yeomna-batch/src/processor.rs:185-318 | with at least one permit, in every interleaving a run takes at most three steps an item and one more, and until it has ended there is a step to take |
| Batch.NeverStuck | crates/yeomna-batch/src/processor.rs:185-318 | a run that has not ended can always skip, spawn, finish, join or complete |
| Batch.ChainStaysDisjoint | crates/yeomna-batch/src/state.rs:90-109 | over any chain of resumed runs no file holds an id both as completed and as failed |
| Batch.NextKeepsInv | crates/yeomna-batch/src/processor.rs:185-318 | every skip, spawn, finish, join and completion keeps one result per item passed and the checkpoint grown from joined outcomes only |
| Batch.FailureSticks | crates/yeomna-batch/src/processor.rs:185-209 | over any chain of resumed runs, cut anywhere, a checkpointed failure is never processed again, is reported at stage "resume" with its original message, and keeps the checkpoint alive |
| Batch.CompletedNotReprocessed | crates/yeomna-batch/src/processor.rs:185-209 | while the checkpoint lives no completed item is processed again |
| Batch.PanickedIsRetried | crates/yeomna-batch/src/processor.rs:327-369 | over any chain of resumed runs an item that panicked, whether or not the panic was joined before the run was cut, is processed again by the first run that gets to it; so is one whose run was cut before its outcome was recorded |
| EmbedClient.EmbeddingClient.Embed | crates/yeomna-embed/src/embedding.rs:374-472 | at most 2n less the number of initial batches requests, each of consecutive inputs, a batch that ran out of memory followed by its first half; a success carries exactly indices 0 to n - 1, each result from an answer of this run, and every answer of the run from one cohort; an error is the last answer's own and nothing earlier was one; complete answers give a success; with an honest service it is the map of the service over the inputs |
| EmbedClient.EmbeddingClient.Drain | crates/yeomna-embed/src/embedding.rs:408-445 | from any queue that covers the inputs, at most its cost in requests, in whatever order the refusals come, with the same guarantees on the result |
| EmbedClient.EmbeddingClient.Assemble | crates/yeomna-embed/src/embedding.rs:447-462 | answers only when the results are exactly those of 0 to n - 1 |
| EmbedClient.EmbeddingClient.Rebase | crates/yeomna-embed/src/embedding.rs:424-430 | inserts each result under its index plus the position of its batch |
| EmbedClient.InitialWork | crates/yeomna-embed/src/embedding.rs:398-401 | the inputs cut into batches, in order, each at its position |
| EmbedClient.HalvingKeepsCover | crates/yeomna-embed/src/embedding.rs:431-442 | putting the two halves of the first range back keeps the queue covering exactly the same inputs with adjacent ranges, and costs one less |
| EmbedClient.CostOfCover | crates/yeomna-embed/src/embedding.rs:408-445 | a queue over k inputs in b ranges costs at most 2k - b requests |
| EmbedClient.IntoValues | crates/yeomna-embed/src/embedding.rs:447 | the results in ascending order of index |
| EmbedClient.InsertConsecutive | crates/yeomna-embed/src/embedding.rs:424-430 | rebased results numbered consecutively fill exactly their range |
| Store.PgSink.InsertDocuments | crates/yeomna-store/src/sink.rs:530-560 | the memoizing, savepointed batch refines a plain fold that looks every parent up afresh; a lost connection or an unknown container leaves the store unchanged |
| Store.PgSink.InsertOne | crates/yeomna-store/src/sink.rs:145-200 | a document the database refuses is rolled back alone, and the memo stays equal to fresh lookups |
| Store.PgSink.ParentNode | crates/yeomna-store/src/sink.rs:121-139 | a memoized lookup is what a fresh one would answer |
| Store.PgSink.InsertNode | crates/yeomna-store/src/sink.rs:210-286 | the head row and the log entry of an insert, an overwrite that changes the payload, and one that does not |
| StorePayloads.RowCarriesDocument | crates/yeomna-store/src/sink.rs:216-222 | the row a document leaves has as payload the document without `_key`: no other member added, dropped or changed |
| StorePayloads.SamePayloadIff | crates/yeomna-store/src/sink.rs:219-234 | two documents have one payload exactly when they agree, up to member order, on every member besides `_key` |
| StorePayloads.ChangeIsLoggedIff | crates/yeomna-store/src/sink.rs:205-284 | overwriting one document with another adds a log entry exactly when they differ on a member besides `_key` |
| StorePayloads.BatchRowsCarry | crates/yeomna-store/src/sink.rs:530-560 | after an overwriting batch each row carries the last document to land under its key, and its kind |
| Store.PgSink.AppendLog | crates/yeomna-store/src/sink.rs:291-302 | appends one entry numbered one past the greatest |
| Store.PgSink.InsertEdge | crates/yeomna-store/src/sink.rs:308-362 | both ends resolved after stripping a container name, or a counted rejection |
| StorePayloads.StripContainerIs | crates/yeomna-store/src/sink.rs:55-63 | an end that is a container's name, a slash and a key stands for the key, and any other for itself |
| Store.PgSink.InsertChunk | crates/yeomna-store/src/sink.rs:367-424 | the chunk row with the ids of the symbols that resolve, in order |
| StorePayloads.ChunkRowHolds | crates/yeomna-store/src/sink.rs:367-424 | a chunk's row has its document's text and span, under its node and index, with the nodes its symbol keys name |
| Store.PgSink.InsertEmbedding | crates/yeomna-store/src/sink.rs:430-521 | the vector row of the chunk whose index the key spells, or a counted rejection |
| StorePayloads.VectorRowHolds | crates/yeomna-store/src/sink.rs:430-521 | an embedding's row has its document's numbers, model, revision and task, on the chunk its key spells |
| Store.ChunkIndexRoundTrips | crates/yeomna-store/src/sink.rs:73-77 | an index is parsed from a chunk key exactly when it rebuilds the key |
| Store.JsonbEquality | crates/yeomna-store/src/sink.rs:225-234 | payloads are distinct to the model of the database exactly when they differ by more than member order |
| StoreLaws.LogIsTheHistory | crates/yeomna-store/src/sink.rs:210-302 | after any history of batches each log is numbered 1 to k, starts with an insert, chains each `from` to the previous `to`, records no no-op, and replays to exactly the payload of the head row |
| StoreLaws.UnloggedChangeIff | crates/yeomna-store/src/sink.rs:236-284 | an upsert changes a head row without a log entry exactly when it overwrites the kind, with one that is allowed, under the payload the row already has; nothing else of the row then changes |
| StoreLaws.KindChangesUnlogged | crates/yeomna-store/src/sink.rs:246-284 | one document written to `documents` and then to `codebase_files` changes the kind of its row with every log as it was |
| StoreLaws.LogReplays | crates/yeomna-store/src/sink.rs:291-302 | a log in that form replays to its head |
| StoreLaws.HistoryConsistent | crates/yeomna-store/src/sink.rs:530-560 | every batch keeps all logs in order and node ids unique |
| StoreLaws.BatchAccounts | crates/yeomna-store/src/sink.rs:530-560 | created plus errors is the number of documents, and an aborted batch changes nothing |
| StoreLaws.ClockMovesWithTheLog | crates/yeomna-store/src/sink.rs:246-284 | across a batch `ingested_at` moves only where an entry is appended, and a payload changes only there |
| StoreRepeats.RepeatIsNoOpIff | crates/yeomna-store/src/sink.rs:530-560 | repeating any batch at any later time, whatever its container and flag, leaves the store exactly as it was if and only if it names no container, does not overwrite, is not of nodes, is lost, or has one payload for the documents that land under one key |
| StoreRepeats.OtherRepeats | crates/yeomna-store/src/sink.rs:308-521 | a committed batch of edges, chunks or embeddings repeats to nothing, repeated keys and both flags included |
| StoreRepeats.SamePayloadsRepeat | crates/yeomna-store/src/sink.rs:210-286 | an overwriting batch of nodes with one payload a key repeats to nothing, even when its kinds differ |
| StoreRepeats.RepeatFixesPayloads | crates/yeomna-store/src/sink.rs:210-286 | and only such a batch does |
| StoreRepeats.KeptNodesRepeat | crates/yeomna-store/src/sink.rs:255-266 | a batch of nodes that does not overwrite repeats to nothing |
| StoreLaws.RepeatedKeyKeepsLogging | crates/yeomna-store/src/sink.rs:530-560 | with two different payloads under one key each repetition appends two entries |
| DocumentGraph.ParseGraphBlocks | crates/yeomna-pipeline/src/document_graph.rs:92-130 | the fence scanner and block parser compute the specified report |
| DocumentGraph.ParseBlock | crates/yeomna-pipeline/src/document_graph.rs:168-205 | an accepted block adds its declarations and a refused one exactly one refusal |
| DocumentGraph.ParseStanza | crates/yeomna-pipeline/src/document_graph.rs:207-311 | the fields of one stanza become a node, an edge or the first refusal |
| DocumentGraph.ParseNode | crates/yeomna-pipeline/src/document_graph.rs:220-258 | a node stanza: one-word kind and tag, later lines win, reserved names refused |
| DocumentGraph.ParseEdge | crates/yeomna-pipeline/src/document_graph.rs:259-305 | an edge stanza: both ends once each, reserved names refused |
| DocumentGraph.SplitStanzas | crates/yeomna-pipeline/src/document_graph.rs:169-183 | the runs of non-blank lines |
| DocumentGraphFields.NodeStanzaIs | crates/yeomna-pipeline/src/document_graph.rs:220-258 | a node stanza declares its node exactly when its key is one token and each later line is a one-word kind or tag or an extra that is not reserved; the last line of a field counts; a refusal names the first line that may not be there |
| DocumentGraphFields.EdgeStanzaIs | crates/yeomna-pipeline/src/document_graph.rs:259-305 | an edge stanza declares its edge exactly when its relation has the shape of one, each end is one token given exactly once, and its extras are not reserved; a refusal names a line of the stanza |
| DocumentGraphFields.LinesOfText | crates/yeomna-pipeline/src/document_graph.rs:96 | a text's lines are what stands before its line ends, of either kind, and after the last |
| DocumentGraphFences.EveryFenceFound | crates/yeomna-pipeline/src/document_graph.rs:92-130 | in a text of prose, other fences and graph fences exactly the graph fences are blocks, each with its lines, and one left open at the end is refused at its own line |
| DocumentGraphFences.EveryTextHasParts | crates/yeomna-pipeline/src/document_graph.rs:92-130 | every text is made of such parts |
| DocumentGraphLaws.EveryBlockAnswersOnce | crates/yeomna-pipeline/src/document_graph.rs:92-130 | on any text the declarations are those of the accepted blocks in order, and every other block leaves exactly one refusal, so refusals never exceed blocks seen |
| DocumentGraphLaws.AllOrNothing | crates/yeomna-pipeline/src/document_graph.rs:168-205 | a block yields a declaration for each of its stanzas, or only its first refusal |
| DocumentGraphLaws.ParsedIsShaped | crates/yeomna-pipeline/src/document_graph.rs:57-81 | on any text every declaration has the shape of the notation and no reserved extra |
| DocumentGraphPrinter.ParseUndoesPrint | crates/yeomna-pipeline/src/document_graph.rs:92-311 | printing any list of blocks of shaped declarations and parsing the text gives the same declarations, each at the line it stands on, with no refusal |
| DocumentGraphFences.ParseUndoesPrintAmong | crates/yeomna-pipeline/src/document_graph.rs:92-130 | blocks printed anywhere among prose and other fences give the same declarations, each at its line, with no refusal |
| DocumentGraphFences.GraphLineEndsOtherFence | crates/yeomna-pipeline/src/document_graph.rs:109-114 | a line that would open a graph block, inside another fence, only ends that fence |
| DocumentGraphPrinter.ReprintIsStable | crates/yeomna-pipeline/src/document_graph.rs:92-311 | on any text, printing what was parsed and parsing again gives the same declarations |
| Documents.WriteDeclared | crates/yeomna-pipeline/src/documents.rs:414-535 | the three passes and their batches, with the summary |
| Documents.CollectNodes | crates/yeomna-pipeline/src/documents.rs:422-456 | one document for each first declaration that does not name a code node |
| Documents.CollectPlaceholders | crates/yeomna-pipeline/src/documents.rs:465-489 | one placeholder for each end that is neither declared nor stored |
| Documents.CollectEdges | crates/yeomna-pipeline/src/documents.rs:498-525 | one document for each (from, to, relation), the first declaration of it |
| DocumentsLaws.PassNodesIs | crates/yeomna-pipeline/src/documents.rs:422-456 | one document a key, none for a code node, and written, fused and duplicate add up to the declarations |
| DocumentsRows.NodeDocHolds | crates/yeomna-pipeline/src/documents.rs:444-453 | a node's document holds its key, tag, document, line and every extra, its kind unless an extra stands over it, and nothing else |
| DocumentsRows.DeclaredKindIff | crates/yeomna-pipeline/src/documents.rs:444-453 | it says the declared kind exactly when no extra named `declared_kind` says another |
| DocumentsRows.ExtraOverKind | crates/yeomna-pipeline/src/documents.rs:451-453 | a declaration whose extra does |
| DocumentsRows.FirstNodeWins | crates/yeomna-pipeline/src/documents.rs:422-463 | after an overwriting run the row of each declared key that is no code node carries the document of its first declaration |
| DocumentsLaws.PassEndsIs | crates/yeomna-pipeline/src/documents.rs:465-489 | placeholders are exactly for the ends that are neither declared nor stored |
| DocumentsRows.PassEndsFirsts | crates/yeomna-pipeline/src/documents.rs:465-489 | each placeholder says which document named its end first |
| DocumentsLaws.AfterPlaceholdersFrame | crates/yeomna-pipeline/src/documents.rs:414-496 | after nodes and placeholders every declared key and every end has a node, and only documents were written to |
| DocumentsLaws.ParsedIsWellDeclared | crates/yeomna-pipeline/src/documents.rs:232-249 | what the parser yields for any corpus meets what the writer assumes |
| DocumentsEdges.EdgeHasRowIff | crates/yeomna-pipeline/src/documents.rs:414-535 | an edge has its row exactly when both ends, stripped of a leading container name, are stored, declared or named; always when its ends carry no container name |
| DocumentsEdges.NoneRejectedIff | crates/yeomna-pipeline/src/documents.rs:526-533 | an overwriting run rejects no edge exactly when every end is known in that sense, and written, rejected and duplicate add up |
| DocumentsRows.SummaryCounts | crates/yeomna-pipeline/src/documents.rs:422-535 | nodes written, nodes fused and placeholders number the keys they are of, and duplicates the declarations past the first of each key or identity |
| DocumentsEdges.FirstDeclarationWins | crates/yeomna-pipeline/src/documents.rs:498-525 | one row for each (from, to, relation), carrying the attributes of its first declaration |
| DocumentsRows.EdgeRowHolds | crates/yeomna-pipeline/src/documents.rs:506-525 | that row holds the document and line of the declaration and every extra, and nothing else |
| DocumentsRows.RelationsAre | crates/yeomna-pipeline/src/documents.rs:508 | the summary counts under each relation the distinct edges declared with it |
| DocumentsEdges.PassEdgesIs | crates/yeomna-pipeline/src/documents.rs:498-525 | the kept declarations are exactly the first of each identity |
| DocumentsEdges.OthersUntouched | crates/yeomna-pipeline/src/documents.rs:420-448 | no existing non-document node or its log is altered, nor an edge no declaration names |
| DocumentsEdges.SecondRunIsNoOp | crates/yeomna-pipeline/src/documents.rs:414-535 | a second run over the same corpus changes nothing in the store, with either overwrite flag |
| Codebase.WriteFileNodes | crates/yeomna-pipeline/src/codebase.rs:415-452 | the file node, then a node for each symbol that is a graph primitive |
| Codebase.SymbolDocHolds | crates/yeomna-pipeline/src/codebase.rs:456-468 | every symbol but an import and an impl block has a document, of an allowed kind, with its names, lines and metadata |
| Codebase.WriteNodes | crates/yeomna-pipeline/src/codebase.rs:191-195 | pass 1: every changed file |
| Codebase.CollectDefines | crates/yeomna-pipeline/src/codebase.rs:746-762 | one `defines` edge for each primitive symbol of each changed file |
| Codebase.EveryDefinesResolves | crates/yeomna-pipeline/src/codebase.rs:746-762 | whatever is written between the passes, every `defines` edge has its row from its file to its symbol |
| Codebase.FilesWritten | crates/yeomna-pipeline/src/codebase.rs:415-468 | after pass 1 both ends of every `defines` edge are nodes |
| Symbols.SymbolKeyNoSlash | crates/yeomna-keys/src/lib.rs:121-192 | a symbol key never holds a slash, so no container name can be stripped from it |
| Symbols.SymbolKeyWithinCap | crates/yeomna-keys/src/lib.rs:96-100 | whatever the file and the name, a symbol key is at most 254 bytes |
| Symbols.SameKeySameDigest | crates/yeomna-keys/src/lib.rs:121-192 | two symbols share a key only if their digests collide, an overlong file key being part of the digest |
| Symbols.FileKey | crates/yeomna-keys/src/lib.rs:84-86 | a file key holds no slash and no dot |
| Windows.LateBoundaries | crates/yeomna-chunking/src/late.rs:62-77 | the loop of the late chunker yields the specified windows and ends |
| Windows.WindowBoundaries | services/embedder/server.py:243-270 | so does the loop of the service |
| Windows.HashWindows | crates/yeomna-pipeline/src/embed.rs:225-240 | so does the loop of the hash embedder, with the size clamped to one |
| Windows.WindowsTile | services/embedder/server.py:243-270 | windows start at 0, end at n, leave no gap, share exactly the overlap (all but one token when it is not less than the size), and number 1 + ceil(max(0, n - size) / step) |
| Windows.EveryTokenCovered | services/embedder/server.py:243-270 | every token is in a window |
| Windows.LoopsAgreeIff | crates/yeomna-chunking/src/late.rs:62-77 | the three loops agree exactly when the size is at least one; a size of zero gives an empty window a token |
| Windows.WholeTextIsOneWindow | crates/yeomna-embed/src/embedding.rs:711-716 | the whole-text policy gives one window exactly up to the ceiling |
| Spans.CharToByteTable | services/embedder/server.py:298-312 | the byte at which each character starts |
| Spans.CountPrefixTokens | services/embedder/server.py:315-338 | the dropped leading tokens carry no character of the caller, and the first kept one does |
| Spans.ChunkByteSpan | services/embedder/server.py:341-375 | the UTF-8 image of the hull of the window's tokens, clipped to the caller's text, for any offsets and any prefix |
| Spans.SpanSlices | crates/yeomna-embed/src/embedding.rs:227-229 | such a span always lands on character boundaries, slices whole characters, and covers every character of the caller its tokens cover |
| Spans.SpanIsTight | services/embedder/server.py:341-375 | when each token of a window carries text, the first and last character of the slice are a token's |
| Spans.EmbedInput | services/embedder/server.py:729-773 | one chunk for each window over the kept tokens, with the span of the window and the vector pooled from the hidden states of exactly its tokens; refused exactly when no token carries text |
| Spans.LatePieces | crates/yeomna-pipeline/src/embed.rs:275-301 | the pieces are the slices in order, or the first chunk that does not slice |
| Spans.EmbedThenCut | crates/yeomna-pipeline/src/embed.rs:275-301 | end to end, what the service answers is never rejected by the consumer, and each piece is the text of its window with the vector of the same window |
| Utf8.SliceAtOffsets | crates/yeomna-embed/src/embedding.rs:227-229 | slicing UTF-8 between two character offsets gives exactly the characters between |
| Utf8.EncodeInjective | services/embedder/server.py:298-312 | UTF-8 is injective |
| Sentences.SplitSentences | crates/yeomna-chunking/src/strategies.rs:282-316 | sentences run to the first stop before whitespace or the end, start at the first byte that is not blank, and leave only ASCII whitespace outside |
| Sentences.SplitUnique | crates/yeomna-chunking/src/strategies.rs:282-316 | that description fixes the sentences |
| Sentences.SentenceCharacters | crates/yeomna-chunking/src/strategies.rs:282-316 | in characters, a sentence runs to the first full stop, exclamation or question mark before a blank or the end, and starts at the first character that is not blank after the one before |
| Sentences.SentenceBoundaries | crates/yeomna-chunking/src/strategies.rs:191-210 | sentences start and end between characters, so slicing never fails |
| Sentences.Chunk | crates/yeomna-chunking/src/strategies.rs:173-250 | the chunks are exactly the greedy runs of sentences; the tail merge never fires |
| Sentences.Pack | crates/yeomna-chunking/src/strategies.rs:184-248 | from sentences of the text, one chunk for each greedy run, sliced from the text |
| Sentences.PackNext | crates/yeomna-chunking/src/strategies.rs:191-219 | the count kept sentence by sentence, gap included, is the count of the whole open run, and decides as the count of the whole run would |
| Sentences.CharsAreCharacters | crates/yeomna-chunking/src/strategies.rs:191-199 | a run of sentences is a slice of whole characters of the text and its count is how many there are |
| Sentences.GreedyDivides | crates/yeomna-chunking/src/strategies.rs:191-219 | every chunk is feasible or a lone sentence, and chunks follow one another without leaving out a sentence |
| Sentences.WithinMaximum | crates/yeomna-chunking/src/strategies.rs:191-219 | every chunk is the characters of the text from i to j, at most the maximum of them unless it is a lone sentence |
| Sentences.GreedyIsOptimal | crates/yeomna-chunking/src/strategies.rs:191-219 | no division of the sentences into consecutive feasible runs uses fewer chunks |
| Sentences.NoMergeAfterFlush | crates/yeomna-chunking/src/strategies.rs:222-233 | once a chunk was flushed the merged tail exceeds the maximum, so the merge can never fire |
| Schemas.RefsIn | crates/yeomna-mcp/src/tools.rs:63-78 | appends every definition a value points at, in order |
| Schemas.RefsAre | crates/yeomna-mcp/src/tools.rs:63-78 | the names collected are exactly those that some object inside the value, at any depth, points at with `$ref` |
| Schemas.Reachable | crates/yeomna-mcp/src/tools.rs:91-106 | ends on cyclic definitions and takes exactly the definitions reached from the schema, each as it stands |
| Schemas.ReachedIsLeastClosed | crates/yeomna-mcp/src/tools.rs:91-106 | those are the least set closed under references, and nothing dangles when the root map is closed |
| Resolvers.BuildIndex | crates/yeomna-code/src/rust_imports.rs:142-166 | the index holds exactly the names that have entries, in the order of the walk |
| Resolvers.PickBestImportTarget | crates/yeomna-code/src/rust_imports.rs:285-339 | the loop computes the specified pick |
| Resolvers.PickBest | crates/yeomna-code/src/python_calls.rs:203-219 | the caller's own file first, then the least pair |
| Resolvers.ResolveRustImports | crates/yeomna-code/src/rust_imports.rs:174-227 | the first edge of each key, in the order of the walk |
| Resolvers.ResolveCallTarget | crates/yeomna-code/src/python_calls.rs:161-197 | qualified name, then `self.` rewritten, then bare name |
| Resolvers.ResolvePythonCalls | crates/yeomna-code/src/python_calls.rs:69-144 | the first edge of each key, in the order of the walk |
| ResolverLaws.PickImportIs | crates/yeomna-code/src/rust_imports.rs:285-339 | the pick is the first entry of a file than which none scores higher, or as high with a smaller path |
| ResolverTargets.UseLeaf | crates/yeomna-code/src/rust_imports.rs:105-136 | a use path is looked up under its own last segment, whatever qualifiers and modules stand before it and whatever it is renamed to |
| ResolverTargets.ScoreIs | crates/yeomna-code/src/rust_imports.rs:292-323 | a file scores one for each module of the use path, by position, that is a component of its path |
| ResolverTargets.UseEdgeIs | crates/yeomna-code/src/rust_imports.rs:183-222 | a use path that is no glob gives one edge, from its file to the best entry under its last segment outside that file, or none exactly when there is no such entry |
| ResolverTargets.EntriesAre | crates/yeomna-code/src/rust_imports.rs:142-166 | the entries under a name are exactly the symbols filed under it in any file |
| ResolverTargets.PickCallIs | crates/yeomna-code/src/python_calls.rs:203-219 | the first entry of the caller's own file, else the least pair in byte order |
| ResolverTargets.CallTargetIs | crates/yeomna-code/src/python_calls.rs:161-197 | a call resolves by its qualified name, failing that on `self` by the caller's class and the method, failing that by its bare name, and otherwise to nothing |
| ResolverTargets.OwnMethodFound | crates/yeomna-code/src/python_calls.rs:176-187 | a call on `self` finds the class's own method, in whichever file it is |
| ResolverTargets.FileCallsAre | crates/yeomna-code/src/python_calls.rs:90-139 | the call edges of a file are exactly those of the calls its symbols record, from the caller to its target, none to itself |
| ResolverLaws.PickImportSame | crates/yeomna-code/src/rust_imports.rs:285-339 | the target of an import does not depend on how the files are interleaved |
| ResolverLaws.PickCallSame | crates/yeomna-code/src/python_calls.rs:203-219 | nor does the target of a call |
| ResolverLaws.ImportKeysInAnyOrder | crates/yeomna-code/src/rust_imports.rs:174-227 | the same import edge keys in every order of the file maps, both for the index and for the resolving |
| ResolverLaws.ImportEdgesInAnyOrder | crates/yeomna-code/src/rust_imports.rs:174-227 | and the same full edges when no two files give different first edges under one key |
| ResolverLaws.ImportsAgreeIff | crates/yeomna-code/src/rust_imports.rs:205-222 | that condition fails exactly when two files emit an edge under one key |
| ResolverLaws.DistinctFileKeysSuffice | crates/yeomna-keys/src/lib.rs:84-86 | distinct file keys, and edge keys that do not collide on the edges at hand, meet it |
| ResolverLaws.ClashingFilesDependOnOrder | crates/yeomna-code/src/rust_imports.rs:205-222 | two paths with one file key whose edge depends on which is walked first |
| ResolverLaws.CallsInAnyOrder | crates/yeomna-code/src/python_calls.rs:69-144 | the same for call edges, with both indexes |
| ResolverLaws.CallsAgreeIff | crates/yeomna-code/src/python_calls.rs:118-139 | for calls too the order matters exactly when two files emit an edge under one key |
| ResolverLaws.DistinctSymbolKeysSuffice | crates/yeomna-code/src/python_calls.rs:90-139 | symbol keys distinct across files, and edge keys that do not collide, make call edges order-free |
| EdgeOrder.OrderFreeIff | crates/yeomna-code/src/rust_imports.rs:181-224 | deduplicated edges are the same set in every order exactly when no two files give different first edges under one key |
| EdgeOrder.SameKeysInAnyOrder | crates/yeomna-code/src/rust_imports.rs:181-224 | the set of edge keys is the same in every order, unconditionally |

## Left out

- Postgres, SQL text, sockets, HTTP, process spawning, the daemon and the CLI views: the database is a value of tables, a child process an outcome, a request an answer.
- syn, rustpython, libclang, tree-sitter, language servers, docling and the tokenizer: their trees, symbols and offsets are inputs.
- Mean pooling, normalization and the hash vectors: floating point with square roots. `Spans.EmbedInput` takes the vector of a window as a function.
- SHA-256 and timestamps: a digest is a parameter, a clock a number handed to each transaction.
- `nearest`, `collect_use_paths`, `universal_kind` as a table, framing, rate limiting, progress, configuration, metrics, actor lookup and the `conforms` scanner: true but easy.
- Totality of Rust import edges: the index holds `impl` symbols that are never stored, so an import may name a node that does not exist.
- CanonicalJson.SameBytesIffEqualUpToOrder: floats are identified by their printed text, so 0.0 and -0.0, which serde_json holds equal, are two values here; the escapes and numbers follow serde_json's compact form.
- CanonicalJson.RemoveMachineLocalPaths: returns the edited value where the source edits in place; removal order of `fields.remove` is not modelled.
- UseTrees.ExpandUseGroup: on strings that are not printed trees only termination and equality with the recursive expansion are stated.
- McpServer.EveryLineAnsweredRight: messages are queued, not written; a broken output stream is the end of input, and the supervisor task itself is taken not to panic, so the backstop in `reap` has nothing to answer.
- Batch.EveryInterleaving: reset, a run without a state file, a corrupt file, a concurrency of zero and the rate limiter are not modelled.
- CanonicalJsonLaws.CanonicalBytesAreJson: the reader takes compact text, which is what the encoder writes, and no surrogate pairs, which it never writes.
- EmbedClient.EmbeddingClient.Embed: durations, integer widths and the per-request dimension checks are not modelled; a service is any function of the request's number and its batch.
- Store.PgSink.InsertNode: jsonb is a value up to member order, as in `Store.JsonbEquality`; id counters are rolled back with their transaction.
- Store.PgSink.InsertDocuments: removal of documents by field and the probes other than `stored_kind` are not modelled.
- Store.JsonbEquality: numbers are compared as they are written, so 1 and 1.0 differ here and are one number to Postgres.
- StoreLaws.LogIsTheHistory: the log does not hold the kind of the head row; `StoreLaws.UnloggedChangeIff` says exactly when that shows.
- Documents.WriteDeclared: embedding, chunking and the walk before it are not modelled; nor is an error of the sink, which ends the run after the passes before it: the documents are all accepted.
- Codebase.WriteNodes: chunks, embeddings and the language-server pass between the passes are not modelled; `Codebase.EveryDefinesResolves` allows for anything that keeps nodes.
- Spans.EmbedInput: the token ceiling and the retokenization guard refuse a request before this point.
- Sentences.Chunk: the merge in the dead branch is not written out.
- Schemas.Reachable: definitions are a map, so their order in the result is not modelled.
- Resolvers.BuildIndex: one method stands for the three loops that build an index, which differ in the name they file a symbol under.
