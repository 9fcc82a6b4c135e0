# peerly review pipeline — a Dafny model

peerly reviews LaTeX manuscripts with several language-model agents and
puts caches in front of the expensive steps. This project models the
deterministic parts and proves properties about them:

- **Caching.**
  - The hybrid review-result cache (`ReviewResultCache`): a fingerprint, an
    exact key and a point id for each document, lookups in strict or lenient
    mode, and the hit and miss counters.
  - The query-level semantic cache (`QdrantSemanticCache`).
  - The retrieval service with that cache in front of it (`CachedRAGService`).
  - The script that prunes old review-cache entries.
- **Retrieval.**
  - Choosing a retriever.
  - Overriding `k` for a single retrieval.
  - Formatting the retrieved guidelines.
  - The two retrieval nodes of the review graph and the queries they build.
- **The review pipeline.**
  - Splitting a LaTeX source into sections and classifying their titles.
  - The quick LaTeX validator.
  - Routing sections to the agents, and the math-content test.
  - The state reducer, building each agent's results, and merging them.
  - Building the workflow graph.
  - The orchestrator's sorting, flattening and regrouping.
  - The two severity mappings, the agents' conversion of model answers, and the prompts.
- **Data and configuration.**
  - The request and response schemas, with their bounds and defaults.
  - The CORS origin list of the settings.
  - The quality filter and upload batching used to load guideline chunks.

External collaborators are turned into parameters:

- The language model, the embedding model and the vector store become
  inputs: a search answer, a `Result` from the model, a stored point map.
  A search answer is constrained to what the store promises: at most the
  limit, with scores at or above the threshold.
- SHA-256 is a function parameter. Its type admits exactly the functions
  that return 64 lowercase hexadecimal digits.
- Python's salted `hash()` is a function parameter.
- Wall-clock time is a parameter.
- Whether a network call succeeded is a boolean or a function of the batch
  index.

Each source file maps to one module:

| module | file |
|---|---|
| `ReviewResultCache` | `review_result_cache.dfy` |
| `SemanticCache` | `semantic_cache.dfy` |
| `CachedRagService` | `cached_rag_service.dfy` |
| `RagService` | `rag_service.dfy` |
| `RagNodes` | `rag_nodes.dfy` |
| `PruneCache` | `prune.dfy` |
| `Populate` | `populate.dfy` |
| `ReviewWorkflow` | `review_workflow.dfy` |
| `Orchestrator` | `orchestrator.dfy` |
| `LatexParser` | `latex_parser.dfy` |
| `LatexCompiler` | `latex_compiler.dfy` |
| `Severity` | `severity.dfy` |
| `BaseAgent` | `base_agent.dfy` |
| `Prompts` | `prompts.dfy` |
| `Schemas` | `schemas.dfy` |
| `Settings` | `settings.dfy` |

`Text` holds the string operations that Python provides built in:

- `in` and `count`;
- `split` and `join`;
- `strip`, `lower` and `int()` on text written with ASCII digits, with
  CPython's default limit of 4300 digits.

`Wrappers` holds `Option` and `Result`.

Where the code updates state in place, the model does too:

- The three caches are classes. Their counters and point maps are fields.
- The source's loops are methods with loop invariants. Each method is
  proved equal to a specification function, and the properties are proved
  about that function. The loops are:
  - the marker and section loops of `parse_sections`;
  - the grouping loop and the flattening loop of the orchestrator;
  - the merge into a dictionary;
  - the scroll loop of the pruning script;
  - the chunk filter, point preparation and upload loop of the loading script;
  - `format_results`.

Some behaviour of the source follows from these definitions and is worth
knowing:

- On a semantic-cache hit, the retrieval node formats the cached text a
  second time. The cached text is already formatted guidelines, so it comes
  back wrapped in a second header and numbered entry.
  `CachedRagService.CachedHitIsRewrapped` states this exactly.
- The exact key of the review cache digests
  `content + "|" + ",".join(sorted(agents))`. That text determines the
  document and the agent multiset only when agent names hold neither `|`
  nor `,` (`ReviewResultCache.HashInputInjective`).
  `ReviewResultCache.HashInputCollision` shows two requests that share a key
  because an agent name holds a bar. The request schema admits only
  "clarity" and "rigor", so the API cannot produce such a name.
- When `\end{document}` comes before `\begin{document}`, `parse_sections`
  parses an empty body. It then falls back to the single "Document"
  section (`LatexParser.DocumentContentBounds`).

## Model

| member | source | states |
|---|---|---|
| `ReviewResultCache.Fingerprint` | app/cache/review_result_cache.py:143-162 | the fingerprint is a prefix of the document, of length min(len(content), max length) |
| `ReviewResultCache.SortStrings` | app/cache/review_result_cache.py:190 | `sorted(agents)` is a sorted permutation of the agents |
| `ReviewResultCache.SortedUnique` | app/cache/review_result_cache.py:190 | two sorted lists with the same elements are equal, so `sorted` is determined by the multiset |
| `ReviewResultCache.SortPermutationInvariant` | app/cache/review_result_cache.py:190 | permuting the agents does not change `sorted(agents)` |
| `ReviewResultCache.FullHash` | app/cache/review_result_cache.py:177-194 | the exact key is a 64-digit lowercase hexadecimal digest of the hash input |
| `ReviewResultCache.PointIdOf` | app/cache/review_result_cache.py:345 | the point id lies in [0, 10^9) and is congruent to the key's first 16 hex digits read in base 16 |
| `ReviewResultCache.KeyIgnoresAgentOrder` | app/cache/review_result_cache.py:177-194 | permuting the agents changes neither the hash input, nor the key, nor the point id, so a repeated `set` overwrites the same point |
| `ReviewResultCache.HashInputSeparatesDocuments` | app/cache/review_result_cache.py:177-194 | with the same agent multiset, different documents give different hash inputs |
| `ReviewResultCache.HashInputSeparatesAgents` | app/cache/review_result_cache.py:177-194 | for one document and agent names without commas, equal hash inputs imply equal agent multisets |
| `ReviewResultCache.HashInputInjective` | app/cache/review_result_cache.py:177-194 | for agent names without bars or commas, the hash input determines both the document and the agent multiset |
| `ReviewResultCache.HashInputCollision` | app/cache/review_result_cache.py:190-192 | an agent name containing a bar can make two different requests share a hash input |
| `ReviewResultCache.FirstAccepted` | app/cache/review_result_cache.py:247-318 | the index of the first candidate, in search order, that the matching mode accepts; none is accepted before it, and None means none is accepted at all |
| `ReviewResultCache.LookupOfFirst` | app/cache/review_result_cache.py:247-318 | a lookup returns the stored result of the first accepted candidate, and None when there is none |
| `ReviewResultCache.StrictHitIsLenientHit` | app/cache/review_result_cache.py:247-318 | whenever strict matching finds a review, lenient matching finds one too |
| `ReviewResultCache.FindAccepted` | app/cache/review_result_cache.py:250-318 | the candidate loop with early return stops at the first accepted candidate |
| `ReviewResultCache.FirstAcceptedIsFirst` | app/cache/review_result_cache.py:250-318 | an accepted candidate with no accepted candidate before it is the one the scan returns |
| `ReviewResultCache.ReviewResultCache.constructor` | app/cache/review_result_cache.py:57-119 | a new cache keeps its settings, holds the stored points and starts with every counter at zero |
| `ReviewResultCache.ReviewResultCache.Get` | app/cache/review_result_cache.py:196-322 | every call adds one query; a failed search or a missing collection returns None and counts neither a hit nor a miss; otherwise the result is the lookup, a hit adds one hit, and a miss adds one miss and, in strict mode only, the number of candidates to the false candidates (none for an empty answer) |
| `ReviewResultCache.ReviewResultCache.Match` | app/cache/review_result_cache.py:238-318 | once the search has answered, the result is the lookup of the candidates under the document's exact key, and the hit, miss and false-candidate counters change as in `get` |
| `ReviewResultCache.ReviewResultCache.Set` | app/cache/review_result_cache.py:324-372 | a successful write puts the point for the document's key at its id, overwriting what was there; a failed write changes nothing and raises nothing; a store whose points all sit at their keys' ids stays so |
| `ReviewResultCache.ReviewResultCache.Clear` | app/cache/review_result_cache.py:374-392 | dropping the collection empties it; the counters are reset only when dropping and recreating both succeed |
| `ReviewResultCache.ReviewResultCache.HitRatePercent` | app/cache/review_result_cache.py:399-403 | the rate is 100·hits/queries, 0 with no query, and lies in [0, 100] |
| `ReviewResultCache.SetThenGet` | tests/test_review_cache.py:64-116 | in strict mode, after storing a review into a store whose points sit at their keys' ids, asking again for the same document with the agents in any order finds that review whenever the search answer holds its point, at any position |
| `ReviewResultCache.FirstSetThenGet` | tests/test_review_cache.py:67-90 | the first review stored into an empty cache is found by a strict search answering its point |
| `ReviewResultCache.SetThenGetLenient` | app/cache/review_result_cache.py:285-310 | in lenient mode the stored review is found when no other point before it in the answer has the asked agent set |
| `ReviewResultCache.OtherAgentsMiss` | app/cache/review_result_cache.py:250-258 | asking with an agent set that no candidate was stored for finds nothing, in both modes |
| `ReviewResultCache.ClarityOnlyMissesBoth` | tests/test_review_cache.py:92-98 | a request for clarity alone finds nothing, in either mode, when every candidate holds a review stored for clarity and rigor |
| `ReviewResultCache.EditedDocumentMisses` | tests/test_review_cache.py:64-116 | for any search answer whose points were all stored for the original document under the asked agents, a strict lookup for an edited document finds one only if SHA-256 maps two different hash inputs to the same digest |
| `SemanticCache.CollectionName` | app/rag/semantic_cache.py:67 | the collection name is the cache name followed by `_query_cache` |
| `SemanticCache.CollectionNamesDistinct` | app/rag/semantic_cache.py:67 | distinct cache names use distinct collections |
| `SemanticCache.PointId` | app/rag/semantic_cache.py:191 | Python's `%` with a positive modulus gives an id in [0, 10^9) congruent to the hash |
| `SemanticCache.Answer` | app/rag/semantic_cache.py:150-172 | a lookup returns the best hit's stored result exactly when the collection exists and the search returned a hit |
| `SemanticCache.QdrantSemanticCache.constructor` | app/rag/semantic_cache.py:47-96 | a new cache names its collection after the cache, holds the stored points and starts with zero counters |
| `SemanticCache.QdrantSemanticCache.Get` | app/rag/semantic_cache.py:134-176 | every call adds one query; a completed lookup adds exactly one hit or one miss, and an error adds neither and returns None |
| `SemanticCache.QdrantSemanticCache.Set` | app/rag/semantic_cache.py:178-212 | the new points are `AfterSet` of the old: a successful write stores the query's result at its id, overwriting what was there, and keeps every other point; a failure changes nothing and raises nothing |
| `SemanticCache.QdrantSemanticCache.Clear` | app/rag/semantic_cache.py:214-222 | dropping empties the collection and leaves every counter as it was |
| `SemanticCache.QdrantSemanticCache.HitRate` | app/rag/semantic_cache.py:224-243 | the hit rate is hits/queries, 0 with no query, and lies in [0, 1] |
| `SemanticCache.SecondSetWins` | app/rag/semantic_cache.py:191-207 | of two `set` calls for one query, a second that goes through leaves the store as if only it had been made, and a lookup that finds the query's point then answers the second result; a second that fails leaves the first call's effect |
| `SemanticCache.StoredThenFound` | app/rag/semantic_cache.py:150-172 | after a successful `set`, any search answer allowed for a `limit=1` search that holds the query's point makes `get` return the stored result |
| `CachedRagService.CachedGuidelinesToDocuments` | app/rag/cached_rag_service.py:170-188 | a cached text becomes exactly one document holding that text, with the metadata source `semantic_cache` and the agent's name |
| `CachedRagService.CachedHitIsRewrapped` | app/rag/cached_rag_service.py:114-133 | formatting a cache hit gives the header, entry number 1 with the source `semantic_cache`, and the cached text |
| `CachedRagService.CachedRAGService.constructor` | app/rag/cached_rag_service.py:44-90 | with caching on, a new service has a cache named after the agent; with caching off it has none; every counter starts at zero |
| `CachedRagService.CachedRAGService.Retrieve` | app/rag/cached_rag_service.py:91-154 | every call adds one query; a non-empty cached value counts a hit and returns it as one document without calling retrieval; otherwise retrieval runs, a miss is counted when a cache exists, and a non-empty result is written back formatted under the query; hits plus misses equal queries whenever caching is on; the semantic cache's own hit and miss counters move as its `get` counts them (only with an existing collection and a search that answered) and its collection is left as it was |
| `CachedRagService.CachedRAGService.HitRatePercent` | app/rag/cached_rag_service.py:190-208 | the rate is 100·hits/queries, 0 with no query, and lies in [0, 100] |
| `CachedRagService.CachedRAGService.FlushCache` | app/rag/cached_rag_service.py:225-229 | clears the cache when there is one: the points go and the collection is whatever the recreate left, while a failed drop keeps both; the query, hit and miss counters are untouched; without a cache nothing happens |
| `RagService.FormatResults` | app/rag/rag_service.py:138-162 | the accumulation loop computes the formatted guidelines, or the error that formatting a text score raises |
| `RagService.FormattedFailsOnlyOnTextScore` | app/rag/rag_service.py:155-159 | formatting fails exactly when some document's score is text other than "N/A" |
| `RagService.FormattedHeader` | app/rag/rag_service.py:148-162 | no documents give exactly the no-results message; otherwise the text starts with the header |
| `RagService.FormattedHoldsEveryDocument` | app/rag/rag_service.py:151-162 | every document appears as its own numbered entry and its text appears in the output |
| `RagService.EntryShape` | app/rag/rag_service.py:152-160 | an entry is its number, the optional score tag, the source ("Unknown" by default), a newline, the text and a blank line; the score tag appears only when the document has a score |
| `RagService.CreateRetriever` | app/rag/rag_service.py:59-97 | "naive" gives the base retriever and "rerank" the reranking wrapper; any other type is an error; `k` is the configured top-k and a filter is passed only when one is set |
| `RagService.DefaultConfigRetriever` | app/rag/rag_service.py:59-97 | the default configuration gives a plain retriever with `k = 3` and no filter |
| `RagService.Invoked` | app/rag/rag_service.py:99-118 | without `top_k` the retriever answers as configured; with one, a plain retriever is asked with that `k`, and on the reranking wrapper the override raises |
| `RagService.RAGService.constructor` | app/rag/rag_service.py:24-57 | a service holds its configuration and the retriever built from it |
| `RagService.RAGService.Retrieve` | app/rag/rag_service.py:99-118 | the answer is what the retriever returns for the requested `k`; after a successful call `k` is what it was before, and it is left overridden when the retriever raises |
| `RagService.RAGService.RetrieveWithScores` | app/rag/rag_service.py:120-136 | a scored search for the requested `k`, or the configured top-k when none is given |
| `RagNodes.ClarityFocusMeaning` | app/agents/rag_nodes.py:91-100 | the long-text phrase is added exactly when some section has more than 100 words, and the math phrase exactly when the sample mentions a theorem or a lemma, in that order |
| `RagNodes.RigorFocusMeaning` | app/agents/rag_nodes.py:183-197 | each rigor phrase is added exactly when its test holds on the sample, in the order proof, experiment, theorem |
| `RagNodes.RigorPhrasesMeaning` | app/agents/rag_nodes.py:183-197 | each rigor phrase is present exactly when its flag is set, and the phrases keep the order proof, experiment, theorem |
| `RagNodes.QueryStart` | app/agents/rag_nodes.py:85-90 | a query starts with its base text and, when there are sections, with the comma-joined types after it |
| `RagNodes.QueryMentions` | app/agents/rag_nodes.py:85-102 | every lowercased section type and every focus phrase occurs in the query |
| `RagNodes.ClarityQueryMeaning` | app/agents/rag_nodes.py:74-102 | the clarity query starts with its base, names every section type, and holds each focus phrase whose test holds |
| `RagNodes.RigorQueryMeaning` | app/agents/rag_nodes.py:168-199 | the rigor query starts with its base, names every section type, and holds each focus phrase whose test holds |
| `RagNodes.NodeGuidelines` | app/agents/rag_nodes.py:42-72 | no sections give empty guidelines without retrieval; a failure gives empty guidelines; otherwise the guidelines are the formatted retrieval of three documents for the query |
| `RagNodes.ClarityGuidelines` | app/agents/rag_nodes.py:42-72 | the clarity node's guidelines come from its own query |
| `RagNodes.RigorGuidelines` | app/agents/rag_nodes.py:136-166 | the rigor node's guidelines come from its own query |
| `RagNodes.GuidelinesHoldRetrievedText` | app/agents/rag_nodes.py:62-67 | the text of every retrieved document reaches the agent's guidelines |
| `PruneCache.Cutoff` | scripts/prune_old_cache.py:49 | the cutoff is `days` times 86400 seconds before now, and not after now |
| `PruneCache.OldIds` | scripts/prune_old_cache.py:84-88 | the collected ids are exactly the ids of points whose timestamp, 0 when missing, is before the cutoff |
| `PruneCache.OldIdsAppend` | scripts/prune_old_cache.py:71-91 | collecting over consecutive pages concatenates the ids collected from each page |
| `PruneCache.RecentNeverCollected` | scripts/prune_old_cache.py:84-88 | with distinct ids, a point at or after the cutoff is never collected |
| `PruneCache.Calls` | scripts/prune_old_cache.py:71-91 | the scan makes at least one scroll call and stops within the pages given |
| `PruneCache.ScanCollectsOld` | scripts/prune_old_cache.py:71-91 | a successful scan collects exactly the old points among those it read |
| `PruneCache.ReadPointsBound` | scripts/prune_old_cache.py:73-78 | the scan reads at most 100 points per scroll call |
| `PruneCache.PruneDeletesExactlyOld` | scripts/prune_old_cache.py:39-106 | a delete is sent exactly when the cache is enabled, the cutoff can be shown, the collection exists, the scan succeeds and found old ids; it sends exactly those ids, and the reported remainder is the total less their number |
| `PruneCache.CollectOldIds` | scripts/prune_old_cache.py:71-91 | the scroll loop collects what the scan specification collects, or fails as it does |
| `PruneCache.OldIdsOfPage` | scripts/prune_old_cache.py:84-88 | the check over one page collects exactly that page's old ids |
| `PruneCache.PruneOldCacheEntries` | scripts/prune_old_cache.py:28-106 | a run ends as the pruning specification says: disabled, the uncaught cutoff error, missing collection, failure, nothing old, or deleted |
| `PruneCache.DaysArgumentRoundTrip` | scripts/prune_old_cache.py:114-121 | an integer written as the first argument in at most 4300 digits is read back as the number of days, and a longer one is refused |
| `PruneCache.ExitStatus` | scripts/prune_old_cache.py:111-121 | the exit status is 1 exactly when a first argument is not an integer `int` accepts, or when the cache is enabled and the cutoff cannot be computed or printed; 0 otherwise |
| `PruneCache.ExitStatusOfRun` | scripts/prune_old_cache.py:48-52 | once the argument is read, the status is 1 exactly when the run ends with the uncaught cutoff error |
| `Populate.MinLength` | scripts/populate_railway_simple.py:88-98 | a chunk holding a listed math symbol needs 50 characters, any other chunk 200 |
| `Populate.Select` | scripts/populate_railway_simple.py:86-106 | the selection is never longer than its input |
| `Populate.FilteredIsSubsequence` | scripts/populate_railway_simple.py:86-106 | the filtered chunks are an order-preserving subsequence of the input |
| `Populate.FilteredMembers` | scripts/populate_railway_simple.py:86-106 | a chunk is kept exactly when it is in the input and passes the quality checks |
| `Populate.FilterIdempotent` | scripts/populate_railway_simple.py:92-104 | filtering twice equals filtering once |
| `Populate.KeptChunkQuality` | scripts/populate_railway_simple.py:92-104 | a kept chunk's stripped text is long enough for its kind, is not a link, and is not a short "see" reference |
| `Populate.FilterChunks` | scripts/populate_railway_simple.py:86-106 | the filter loop returns exactly the chunks the quality checks keep, in order |
| `Populate.QualityCheck` | scripts/populate_railway_simple.py:92-104 | each early `continue` of the loop body drops the chunk, and a chunk that passes them all is kept |
| `Populate.Tagged` | scripts/populate_railway_simple.py:193-194 | tagging sets `agent_type` in every chunk's metadata and leaves its text and every other key alone |
| `Populate.PreparePoints` | scripts/populate_railway_simple.py:209-219 | one point per chunk with a vector, the k-th with id k, vector k and the k-th chunk's text and metadata |
| `Populate.PointIdsDistinct` | scripts/populate_railway_simple.py:209-219 | ids 0..n-1 are pairwise distinct |
| `Populate.Batches` | scripts/populate_railway_simple.py:143-147 | every batch holds between 1 and 100 points, and there are ⌈n/100⌉ of them |
| `Populate.BatchesCover` | scripts/populate_railway_simple.py:143-147 | the batches concatenate back to the points in order |
| `Populate.BatchAt` | scripts/populate_railway_simple.py:143-147 | batch j is the slice of the points starting at 100·j |
| `Populate.FirstRejected` | scripts/populate_railway_simple.py:143-158 | the index of the first batch the store refuses; all batches before it were accepted |
| `Populate.UploadPoints` | scripts/populate_railway_simple.py:138-158 | batches are sent in order; the upload succeeds exactly when every batch is accepted, including with no points at all; it stops after the first refused batch and sends nothing later |
| `ReviewWorkflow.KeepFirstValue` | app/agents/review_workflow.py:17-23 | the reducer keeps the existing list when it is non-empty, and takes the new one otherwise |
| `ReviewWorkflow.KeepFirstValueMonoid` | app/agents/review_workflow.py:17-23 | the reducer is associative and idempotent, with the empty list as unit on both sides |
| `ReviewWorkflow.ReviewAgents` | app/agents/review_workflow.py:359-361 | the agents default to clarity and rigor |
| `ReviewWorkflow.InitialState` | app/agents/review_workflow.py:366-376 | the initial state holds the sections, empty lists, empty guidelines and no error |
| `ReviewWorkflow.ContainsMath` | app/agents/review_workflow.py:163-188 | content is mathematical exactly when its lowercased text contains one of the indicators |
| `ReviewWorkflow.TheoremIsMath` | app/agents/review_workflow.py:163-188 | a theorem environment is mathematical content |
| `ReviewWorkflow.MathInConcat` | app/agents/review_workflow.py:163-188 | appending text to mathematical content never removes an indicator |
| `ReviewWorkflow.RigorSections` | app/agents/review_workflow.py:148-156 | the rigor sections are never more than the sections |
| `ReviewWorkflow.RigorSectionsMembers` | app/agents/review_workflow.py:148-156 | a section goes to rigor exactly when its lowercased type is a rigor type or its content is mathematical |
| `ReviewWorkflow.RigorSectionsConcat` | app/agents/review_workflow.py:150-156 | the filter keeps the input order |
| `ReviewWorkflow.RigorSectionsIdempotent` | app/agents/review_workflow.py:150-156 | filtering twice equals filtering once |
| `ReviewWorkflow.Route` | app/agents/review_workflow.py:130-161 | every section goes to clarity, and the rigor sections go to rigor |
| `ReviewWorkflow.RouteFromInitialState` | app/agents/review_workflow.py:130-161 | from the initial state the reducer fills both lists with the routed sections and changes nothing else |
| `ReviewWorkflow.BuildSectionSuggestions` | app/agents/review_workflow.py:217-228 | the building loop returns the specified entries |
| `ReviewWorkflow.EntriesMeaning` | app/agents/review_workflow.py:217-228 | each entry comes from a section with suggestions, in section order, and carries one group of the agent's type whose count is its number of items and whose name, line and type are the section's |
| `ReviewWorkflow.EntriesCount` | app/agents/review_workflow.py:217-228 | there are as many entries as sections with at least one suggestion |
| `ReviewWorkflow.MergeLookUp` | app/agents/review_workflow.py:326-341 | per section name, the merge holds the last clarity entry followed by every rigor group of that name, or the first rigor entry extended by the later ones when clarity has none |
| `ReviewWorkflow.MergeOrder` | app/agents/review_workflow.py:326-341 | the merged list has one entry per name, with the clarity names first |
| `ReviewWorkflow.MergeFirstOccurrenceOrder` | app/agents/review_workflow.py:326-341 | the merged sections are exactly the distinct section names of the clarity then the rigor suggestions, ordered by where each name first occurs |
| `ReviewWorkflow.NamesPutAll` | app/agents/review_workflow.py:329-331 | the clarity loop's dictionary keys are the earlier keys followed by each new section name at its first occurrence |
| `ReviewWorkflow.NamesExtendAll` | app/agents/review_workflow.py:333-339 | the rigor loop's dictionary keys are the earlier keys followed by each new section name at its first occurrence |
| `ReviewWorkflow.FirstOccurrenceOrder` | app/agents/review_workflow.py:326-341 | keys added in insertion order stand in the order of their first occurrence in the inserted names |
| `ReviewWorkflow.MergeSuggestions` | app/agents/review_workflow.py:311-341 | the dictionary loop with insertion-ordered keys returns the specified merge |
| `ReviewWorkflow.FinalizeNode` | app/agents/review_workflow.py:280-309 | the final suggestions are the orchestration of the merged suggestions, one per merged section |
| `ReviewWorkflow.BuildWorkflow` | app/agents/review_workflow.py:65-128 | the graph built holds each review node exactly when its agent is selected |
| `ReviewWorkflow.BuiltWorkflowShape` | app/agents/review_workflow.py:76-128 | the graph enters at routing and always ends with finalize and END; each selected agent's path runs through its retrieval node exactly when retrieval is on; with no agent, routing leads straight to finalize |
| `ReviewWorkflow.EveryNodeReachesEnd` | app/agents/review_workflow.py:100-126 | in a well-formed graph every node reaches END |
| `ReviewWorkflow.EveryNodeReachedFromEntry` | app/agents/review_workflow.py:100-126 | in a well-formed graph every node is reached from the entry point |
| `ReviewWorkflow.BuiltWorkflowRuns` | app/agents/review_workflow.py:76-128 | every node of a built graph is reached from the routing node and reaches END, each within four edges, and every node but routing has an incoming edge |
| `Orchestrator.SortDesc` | app/agents/orchestrator_agent.py:307-318 | sorting gives a permutation of the items |
| `Orchestrator.SortDescSorted` | app/agents/orchestrator_agent.py:307-318 | the items come out in non-increasing score, with a missing score counting as 0 |
| `Orchestrator.SortDescStable` | app/agents/orchestrator_agent.py:307-318 | items with equal scores keep their relative order |
| `Orchestrator.SortGroup` | app/agents/orchestrator_agent.py:314-317 | sorting a group keeps its type, its count and its items |
| `Orchestrator.SortedSection` | app/agents/orchestrator_agent.py:307-318 | sorting keeps the section's name, line, type and number of groups |
| `Orchestrator.SortBySeverityScore` | app/agents/orchestrator_agent.py:307-318 | the loop over the groups, sorting each group's items in turn, leaves exactly `SortedSection` of the section |
| `Orchestrator.SortedSectionMeaning` | app/agents/orchestrator_agent.py:307-318 | each group keeps its position, type, count and items, its items are ordered by score, and equal scores keep their order |
| `Orchestrator.Flat` | app/agents/orchestrator_agent.py:98-108 | text, line and agent are kept; a missing or zero score becomes 0.5, and a missing explanation or fix becomes "" |
| `Orchestrator.FlatGroup` | app/agents/orchestrator_agent.py:98-108 | each item of a group is flattened with the group's agent |
| `Orchestrator.FlattenLength` | app/agents/orchestrator_agent.py:97-108 | there is one flattened suggestion per item |
| `Orchestrator.FlattenSuggestions` | app/agents/orchestrator_agent.py:97-108 | the append loop gives every item of every group, group by group |
| `Orchestrator.NothingFlattensToNothing` | app/agents/orchestrator_agent.py:90-95 | a section has nothing to orchestrate exactly when it has no item |
| `Orchestrator.PrimaryType` | app/agents/orchestrator_agent.py:256-268 | a suggestion goes to the group of its first known source agent, and to clarity when the first is missing or unknown |
| `Orchestrator.RebuiltItem` | app/agents/orchestrator_agent.py:271-281 | a rebuilt item has the issue as text, the line and the score, and the level given by `score_to_severity_level` |
| `Orchestrator.RebuildGroups` | app/agents/orchestrator_agent.py:285-298 | there is one group per type, in order of first appearance |
| `Orchestrator.TypeOrderDistinct` | app/agents/orchestrator_agent.py:256-268 | each type is listed at most once |
| `Orchestrator.TypeOrderComplete` | app/agents/orchestrator_agent.py:256-268 | a type is listed exactly when some suggestion goes to it |
| `Orchestrator.TypeOrderItems` | app/agents/orchestrator_agent.py:256-298 | a listed type has at least one item, and any other type has none |
| `Orchestrator.RebuildSectionSuggestions` | app/agents/orchestrator_agent.py:243-305 | the rebuilt section keeps the original's name, line and type, with the regrouped suggestions |
| `Orchestrator.GroupByPrimaryAgent` | app/agents/orchestrator_agent.py:256-281 | the loop records the types in order of first appearance, and each type's items in model order |
| `Orchestrator.RebuildKeepsEverySuggestion` | app/agents/orchestrator_agent.py:256-298 | regrouping loses no suggestion and adds none |
| `Orchestrator.RebuildGroupsMeaning` | app/agents/orchestrator_agent.py:285-298 | each rebuilt group is non-empty, its count is its number of items, its items are sorted by score, and each item's level agrees with its score |
| `Orchestrator.ItemsOfLevelled` | app/agents/orchestrator_agent.py:271-281 | every rebuilt item has a score and the level that score maps to |
| `Orchestrator.RebuiltItemsValid` | app/agents/orchestrator_agent.py:271-298 | when every score of the model's answer lies in [0, 1], as its validation guarantees, every rebuilt item satisfies the suggestion item's score bound |
| `Orchestrator.OrchestrateSection` | app/agents/orchestrator_agent.py:74-129 | the branching of `_orchestrate_section` gives the specified result |
| `Orchestrator.OrchestrateMeaning` | app/agents/orchestrator_agent.py:90-113 | orchestration keeps the section's name, line and type; a section without items is returned unchanged, and one with at most two items is only sorted |
| `Orchestrator.OrchestrateWithModel` | app/agents/orchestrator_agent.py:115-129 | with more than two items, a model failure only sorts the section, and a model answer is regrouped |
| `Orchestrator.ValidateAndPrioritize` | app/agents/orchestrator_agent.py:46-72 | the result is as long as the input, and position i is the orchestration of section i |
| `Orchestrator.ValidateKeepsSections` | app/agents/orchestrator_agent.py:63-72 | position i of the result keeps the name and line of section i |
| `LatexParser.FindDocumentStart` | app/services/latex_parser.py:101-104 | -1 exactly when `\begin{document}` is absent; otherwise the index just past its first occurrence |
| `LatexParser.FindDocumentEnd` | app/services/latex_parser.py:106-109 | -1 exactly when `\end{document}` is absent; otherwise the index of its first occurrence |
| `LatexParser.DocumentContentBounds` | app/services/latex_parser.py:39-52 | without either boundary the whole source is parsed; otherwise the text between the first begin and the first end is parsed |
| `LatexParser.CloseBrace` | app/services/latex_parser.py:12-16 | the first `}` at or after an index, or none |
| `LatexParser.MatchAtMeaning` | app/services/latex_parser.py:12-16 | a marker pattern captures the non-empty, brace-free text between the marker and the next `}` |
| `LatexParser.FindIter` | app/services/latex_parser.py:56-57 | each match lies at a marker occurrence with its captured title, in increasing position |
| `LatexParser.FindIterNonOverlapping` | app/services/latex_parser.py:56-57 | matches of one pattern never overlap |
| `LatexParser.FindIterFindsLeftmost` | app/services/latex_parser.py:56-57 | the search reports the leftmost match first |
| `LatexParser.FindIterComplete` | app/services/latex_parser.py:56-57 | no match is skipped: every match position is found or lies inside a match found before it |
| `LatexParser.FindIterEmpty` | app/services/latex_parser.py:56-57 | the search finds nothing exactly when the pattern matches nowhere |
| `LatexParser.ToMarkers` | app/services/latex_parser.py:58-65 | each match becomes a marker with its title, position and line |
| `LatexParser.MarkersOfPatternsSound` | app/services/latex_parser.py:54-65 | every collected marker is a real match of one of the patterns |
| `LatexParser.MarkersOfPatternsEmpty` | app/services/latex_parser.py:54-65 | no marker is collected exactly when none of the patterns matches anywhere in the body |
| `LatexParser.MarkersOfEmpty` | app/services/latex_parser.py:54-65 | a source has no section marker exactly when no section pattern matches in its body |
| `LatexParser.CollectMarkers` | app/services/latex_parser.py:54-65 | the nested marker loops collect the matches of each pattern in turn |
| `LatexParser.AppendMarkers` | app/services/latex_parser.py:56-65 | the inner loop appends one marker per match |
| `LatexParser.PatternsExclusive` | app/services/latex_parser.py:12-16 | no two marker patterns match at the same position |
| `LatexParser.SortByStart` | app/services/latex_parser.py:67-68 | sorting by position gives a sorted permutation of the markers |
| `LatexParser.BuildSections` | app/services/latex_parser.py:70-87 | one section per marker |
| `LatexParser.BuildSectionList` | app/services/latex_parser.py:70-87 | the section loop builds the specified sections |
| `LatexParser.SortedMarkers` | app/services/latex_parser.py:54-68 | the markers of a body are sorted by position and are all real matches |
| `LatexParser.ParseSections` | app/services/latex_parser.py:26-99 | the method computes the specified parse |
| `LatexParser.ParseNeverEmpty` | app/services/latex_parser.py:89-99 | a parse is never empty |
| `LatexParser.ParseFallback` | app/services/latex_parser.py:89-97 | without markers the parse is the single "Document" section of type "general", from line 1 to the source's line count |
| `LatexParser.ParseFollowsMarkers` | app/services/latex_parser.py:67-87 | with markers there is one section per marker, in position order |
| `LatexParser.SectionsContiguous` | app/services/latex_parser.py:72-76 | sorted markers cut the body into consecutive slices from the first marker to the end |
| `LatexParser.ParseContentsContiguous` | app/services/latex_parser.py:68-76 | the section contents concatenate to the parsed text from the first marker on |
| `LatexParser.ParseTitles` | app/services/latex_parser.py:59-61 | each section's title is the capture of a real marker, and its type is the classification of that title |
| `LatexParser.MarkerTitle` | app/services/latex_parser.py:12-16 | a marker's title is non-empty and holds no `}` |
| `LatexParser.SectionLines` | app/services/latex_parser.py:77-79 | a section's last line is its first line plus the newlines of its content |
| `LatexParser.MarkerLine` | app/services/latex_parser.py:52-59 | a marker's line is 1 plus the number of newlines before it in the whole source |
| `LatexParser.FirstClass` | app/services/latex_parser.py:121-136 | the index of the first class with a keyword in the title; no earlier class has one |
| `LatexParser.ClassifySection` | app/services/latex_parser.py:111-136 | the type is "general" exactly when no class keyword occurs in the lowercased title; otherwise it is the first class, in priority order, that has one |
| `LatexParser.ClassifyIgnoresCase` | app/services/latex_parser.py:111-136 | classification ignores ASCII case |
| `LatexParser.ClassifyPriority` | app/services/latex_parser.py:121-124 | an introduction keyword wins over every later class |
| `LatexCompiler.Messages` | app/services/latex_compiler.py:111-125 | one message per issue, in order |
| `LatexCompiler.Validate` | app/services/latex_compiler.py:97-130 | the messages of the issues found, and validity exactly when there is no issue |
| `LatexCompiler.IssuesMeaning` | app/services/latex_compiler.py:107-125 | on the stripped source, each issue is reported exactly when its check fails, and the mismatch exactly when the counts of `\begin{` and `\end{` differ |
| `LatexCompiler.IssuesOfMeaning` | app/services/latex_compiler.py:110-125 | given the outcomes of the four checks, each issue is in the list exactly when its check fails, and the list is empty exactly when every check passes |
| `LatexCompiler.AppendIssues` | app/services/latex_compiler.py:108-125 | appending an issue per failed check, in order, builds exactly the specified issue list |
| `LatexCompiler.IssuesOrdered` | app/services/latex_compiler.py:111-125 | the issues come in check order, each at most once |
| `LatexCompiler.WhitespaceOnlyIssues` | app/services/latex_compiler.py:111-125 | an empty or whitespace-only source gets exactly the first three issues |
| `Severity.ScoreToSeverityLevel` | app/utils/severity.py:16-51 | ERROR exactly from 0.70, WARNING exactly from 0.40 below 0.70, INFO exactly below 0.40 |
| `Severity.ScoreToSeverityLevelMonotone` | app/utils/severity.py:46-51 | a higher score never gives a lower level |
| `Severity.ScoreToSeverityLevelExamples` | app/utils/severity.py:34-40 | 0.85, 0.55 and 0.25 map to ERROR, WARNING and INFO |
| `BaseAgent.DetermineSeverity` | app/agents/base_agent.py:117-139 | ERROR exactly when the lowercased text holds an error keyword; WARNING exactly when it holds a warning keyword and no error keyword; INFO otherwise |
| `BaseAgent.ErrorKeywordWins` | app/agents/base_agent.py:127-135 | error keywords take precedence over warning keywords |
| `BaseAgent.DetermineSeverityIgnoresCase` | app/agents/base_agent.py:127 | the level depends on the text only up to ASCII case |
| `BaseAgent.DetermineSeverityExample` | app/agents/base_agent.py:17 | a text mentioning something missing is an error |
| `BaseAgent.ToItem` | app/agents/base_agent.py:98-107 | an item takes the issue as text, the section's first line, the keyword severity, no score, and the explanation and fix |
| `BaseAgent.ConvertSuggestions` | app/agents/base_agent.py:96-109 | one item per structured suggestion, in order |
| `BaseAgent.ReviewSection` | app/agents/base_agent.py:69-115 | a failed model call gives no suggestions; otherwise the converted ones |
| `Prompts.SystemPrompt` | app/agents/clarity_agent.py:70-74 | empty guidelines leave the base prompt unchanged; otherwise the base is a prefix, followed by the header and the guidelines |
| `Prompts.SystemPromptHoldsGuidelines` | app/agents/clarity_agent.py:70-74 | the guidelines always appear in the system prompt |
| `Prompts.NumberLines` | app/agents/clarity_agent.py:78-83 | line i is rendered as the number `line_start + i`, a colon, a space and the line |
| `Prompts.NumberedContentLines` | app/agents/clarity_agent.py:78-83 | there are as many numbered lines as the content has newlines plus one, each the numbered content line |
| `Prompts.NumberedContentKeepsLines` | app/agents/clarity_agent.py:78-83 | dropping the numbers recovers the content's lines in order |
| `Prompts.UserPromptMentionsSection` | app/agents/clarity_agent.py:85-103 | the title, the type and the numbered content appear in the user prompt |
| `Schemas.ParseSuggestionType` | app/models/schemas.py:93-99 | exactly clarity, rigor, ethics, style and grammar are suggestion types |
| `Schemas.SuggestionTypeRoundTrip` | app/models/schemas.py:93-99 | every suggestion type is recovered from its value |
| `Schemas.ParseSeverityLevel` | app/models/schemas.py:102-106 | exactly info, warning and error are levels |
| `Schemas.SeverityLevelRoundTrip` | app/models/schemas.py:102-106 | every level is recovered from its value |
| `Schemas.NewStructuredSuggestion` | app/models/schemas.py:13-34 | validation succeeds exactly when the score lies in [0, 1] |
| `Schemas.NewOrchestratedSuggestion` | app/models/schemas.py:48-75 | validation succeeds exactly when the score lies in [0, 1]; on success every field holds its argument and the note is the given value or None |
| `Schemas.NewSuggestionItem` | app/models/schemas.py:118-125 | severity defaults to INFO when left out, keeps a given level and refuses null; an optional score is accepted only in [0, 1]; success exactly when severity is not null and the score, if given, is in range; on success text and line are kept and the score, explanation and fix are the given values or None |
| `Schemas.NewReviewRequest` | app/models/schemas.py:143-153 | agents may only be "clarity" or "rigor", default to both when omitted, and are None when sent as null |
| `Schemas.NewReviewResponse` | app/models/schemas.py:156-162 | sections default to empty and the total to 0 when left out, a null for either is refused, the error defaults to none, and given values are kept |
| `Schemas.NewAgentSuggestionResponse` | app/models/schemas.py:37-45 | an agent response defaults to no suggestions when they are left out, keeps given ones and refuses null |
| `Schemas.NewOrchestratorSectionResponse` | app/models/schemas.py:78-85 | an orchestrator response defaults to no suggestions when they are left out, keeps given ones and refuses null |
| `Settings.CorsOriginsList` | app/config/settings.py:55-64 | the configured origins come first, in order; a frontend domain adds exactly its https origin at the end; without one the list is the configured origins |
| `Settings.AllowedOrigins` | app/config/settings.py:55-64 | an origin is allowed exactly when it is configured or is the frontend's https origin |
| `Settings.DefaultAllowsLocalServers` | app/config/settings.py:18-22 | without overrides the three local development servers are allowed |
| `Settings.OneOriginIsListOfOne` | app/config/settings.py:58 | a single configured string behaves as a list holding only it |
| `Text.JoinSplit` | app/agents/clarity_agent.py:79-83 | joining the parts of a split with the separator gives back the text |
| `Text.IntToStringRoundTrip` | scripts/prune_old_cache.py:114-117 | `int(str(n))` is `n` for every integer of at most 4300 digits, and a ValueError beyond |

## Left out

- Embeddings, similarity and the vector store are not modelled. The index is a map from id to point. A search is an answer that satisfies the store's promise: at most the limit, every id stored, and scores at or above the threshold. The order of that answer is taken as given.
- The language-model calls `ainvoke` and `_llm_orchestrate` are not modelled. Their answers are `Result` inputs. The long prompt texts are constants or parameters.
- SHA-256 (FIPS 180-4) is a parameter. Its type admits exactly the functions that return 64 lowercase hexadecimal digits.
- Python's salted `hash()` in the semantic cache is a function parameter.
- JSON serialisation of stored reviews is not modelled. A review is stored and returned as the same string.
- Floating-point scores and times are reals.
- `time.time()` is a parameter.
- The time-saved estimates, `print_stats` and all logging are left out.
- Python set iteration order in `_formulate_query` is an oracle. It is a given enumeration of the distinct section types.
- `asyncio.gather` and the LangGraph runtime are modelled sequentially. The review nodes map over their sections in order. The workflow graph is a plain set of nodes and edges.
- Exceptions are modelled as `Failure` results or as boolean outcome parameters. Catch-alls become the branches they lead to.
- Python's `lower()` is modelled on ASCII letters only.
- Python's `strip()` removes the Unicode whitespace characters listed in the `Text` module.
- `ReviewWorkflow.MergeSuggestions`: this is modelled on values. The source extends the clarity entry's group list in place, which also changes the caller's object. The model returns a new list, so that aliasing is not captured.
- `Orchestrator.SortBySeverityScore`: this is modelled on values. The source sorts each group's list in place.
- `Populate.Tagged`: this is modelled on values. The source writes `agent_type` into each chunk's metadata in place.
- `PruneCache.CollectOldIds`: a scroll offset is modelled only as present or absent. The scan stops when it is absent or when a page is empty.
- `PruneCache.PruneOldCacheEntries`: when the delete request itself raises, the run is reported as `Failed`. The count of remaining points is not read again afterwards.
- `PruneCache.DaysArgument`: this has no contract of its own. It is covered by `DaysArgumentRoundTrip` and `ExitStatus`.
- `PruneCache.PruneOldCacheEntries`: whether the cutoff converts to a float and to a local time is the parameter `cutoffShown`. The model does not compute which day counts exceed the float range or the platform's time range.
- `Text.ParseInt`: only ASCII digits are read. Python's `int()` also accepts the other Unicode decimal digits (Arabic-Indic digits, for instance), which the model refuses; so `PruneCache.ExitStatus` gives 1 for such an argument where the script runs.
- `Text.ParseInt`: the 4300-digit limit is CPython's default. A limit changed through `sys.set_int_max_str_digits` or `PYTHONINTMAXSTRDIGITS` is not modelled.
- `Text.IntToString`: an integer of more than 4300 digits is written out. CPython's `str` raises ValueError for it. Such integers reach `str` only as line numbers and counts in messages.
- `Text.IntToStringRoundTrip`: the ValueError beyond 4300 digits comes from `ParseInt` in the model, while CPython raises it already in `str`. Either way the round trip fails.
- `ReviewResultCache.Fingerprint`: the length limit is a natural number. A negative `max_fingerprint_length` would slice from the end in Python and is not modelled.
- The constructors assume the collection exists, or that creating it succeeded. A failed creation at construction is not modelled.
- `create_collection_via_api` in the loading script is not part of this model.
- The `main` of the loading script is not part of this model. That covers argument parsing, chunking PDFs into text and the calls to the embedding service.
- `embed_documents.py`, `embed_to_railway.py`, `cache_stats.py`, `clear_cache.py` and `clear_review_cache.py` are not part of this model. They are thin drivers or I/O pipelines.
- The routers, `main.py`, the file service and `LaTeXCompiler.compile` are not part of this model. They are I/O plumbing.
- `settings.review_cache_enabled` is read by the pruning script but is not defined in the settings. It is a parameter of `PruneCache.Prune`.
- `rigor_agent.py` only adds prompt text and the same guideline-appending rule as the clarity agent. `Prompts.SystemPrompt` is that rule with the closing sentence as a parameter. The rigor user prompt inserts the content without line numbers, and that prompt is not modelled.
