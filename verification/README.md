# A verified model of the banking assistant's core

The system answers banking-policy questions from a vetted corpus (retrieve, correct, answer,
reflect, cache), answers data questions by proposing SQL that a person approves, and lets
administrators change its runtime configuration and its corpus. This project models the parts
of it that are hard to get right and proves what they promise, for all inputs, all runs and all
behaviours of the collaborators that it does not control (models, providers, stores, clocks).

## Layout

- `SqlText`, `SqlAst`, `SqlPolicy`, `SqlMeaning`: the SQL policy as a small compiler from text to
  text, with a lexer, a precedence parser and a printer for the accepted SELECT subset,
  qualification against the catalogue, the LIMIT rewrite, the sensitivity lineage, and a row
  semantics with inner and left joins. The three results the approval path rests on are that
  revalidation is a fixpoint, that the rewrite keeps the meaning, and that masking is sound.
- `SqlPrivacy`, `SqlExposure`, `SqlLeftJoin`: masking over whole databases, where filters and joins
  can give a cell away, and exactly when they do.
- `SqlExecutor`: the result-bounding loop.
- `SqlProposals`: the proposal table, the correction loop, one approval start to end, and the
  protocol of many workers, crashes, expiry, rejections and the background reclaimer.
- `SqlService`: what these give together, from generated text to masked answer.
- `Retries`, `Reflection`: the deadline-bounded retry loop and the self-reflection engine.
  The engine is proved against traces: every run, for any collaborators and any clock, is a
  legal trace of numbered clock readings, and the results are about all legal traces.
- `AnswerKeys`, `AnswerCache`, `QueryCache`: the typed cache namespace and its flattened key, the
  exact-match store with its semantic index of pointers under all interleavings, and the tiered
  key/value service.
- `Sentences`, `Crag`: sentence splitting, grading, extractive refinement, web correction, the
  availability boundary, and the hyperproperty that justifies leaving the web toggle out of the
  cache namespace.
- `Quarantine`, `RagOps`: the document quarantine workflow and the audited configuration row.
- `RateLimiter`, `Embeddings`, `Luhn`: the sliding window, cache-aside batch embedding, and the
  Luhn check.
- `Wrappers`, `Numerals`, `Separators`, `Evidence`: shared vocabulary.

`dafny verify dfyconfig.toml` checks the whole project.

## What is assumed

- SHA-256 is injective: fingerprints and cache keys are represented by what is hashed.
- Each committed database transaction, vector-store call or cache call is one atomic step.
- The vector store lists points in one order, by id, and the id of a new point is random.
- Floating-point thresholds, scores and clocks are real numbers. In `Retries` time is advanced
  only by provider calls and by sleeps, and a sleep takes exactly as long as it is asked to.
- In `AnswerKeys` the parts that delegates contribute to a namespace (model names, prompt
  versions, settings) contain no colon, are not plain numbers, and are not the word that opens a
  later segment.
- In `Embeddings` model names contain no colon and the provider's vectors are honest.
- In `SqlProposals` policy versions contain no NUL character.

## Promises that hold under a condition

Each of these is stated with its exact condition, which gives the inputs that fail it; for the last
one the condition is exact but for some left joins, as said there.

- `app/rag_services/crag/corrective_retriever.py:139-144` says that an INCORRECT grade cannot leave
  local evidence, by construction. The two stages have separate thresholds, so this holds exactly
  when the refiner's is not below the grading stage's (`Crag.IncorrectLeavesNothing`); the wiring at
  `app/api/deps.py:285-316` passes one setting to both.
- `app/services/policy_ingestion_service.py:74-78` says that a re-upload replaces the old chunks. It
  looks for them on one scroll page, so it does so exactly when one of them is on that page
  (`Quarantine.ReplacementIsComplete`). Otherwise old chunks stay, searchable ones included
  (`Quarantine.StaleChunkBeyondOnePage`).
- `app/services/policy_ingestion_security_service.py:128-136` reads an upload back for the scanner
  from one page of all quarantined chunks. The scanner is shown the upload exactly when no chunk of
  it is off that page (`Quarantine.ScannerSeesUpload`). Otherwise text that was never scanned can
  pass, be approved and become searchable (`Quarantine.UnscannedBeyondOnePage`).
- Together: an upload leaves its source as its row says exactly when the scanner blocks what it is
  shown, or every chunk of the source is quarantined and on the page (`Quarantine.SubmitOwnExactly`).
  Chunk ids are random, so before an upload this is certain exactly when the old chunks are found
  or quarantined and all quarantined chunks then fit one page (`Quarantine.FittingIsExact`).
- An upload run keeps the invariant all through, whatever its ids and the scanner turn out to be,
  exactly when every upload fits at its time (`Quarantine.RunFitsExactly`).
- `app/core/security/rate_limiter.py:60-61` reads the oldest hit of a bucket that is at its limit. A
  bucket whose limit is zero or negative is at its limit while empty, so every call on it raises,
  and no call on any other bucket does (`RateLimiter.BucketRaisesExactly`). The settings refuse such
  limits (`app/core/config/security.py:21-25`), so only a direct call of `is_allowed` gets there.
- `app/sql/sql_service.py:154-160` commits the lock of a proposal and then reads the catalogue with
  no handler around it. If that read raises, or the update that closes the row does, the row stays
  in EXECUTING until the reclaimer comes, and in no other case does a request leave it there
  (`SqlProposals.ApproveAndExecute`).
- `app/sql/sql_result_policy.py:51-63` masks cells by lineage. Over whole databases that hides the
  sensitive cells if and only if neither WHERE nor a join condition of the stored text reads a
  sensitive column (`SqlExposure.MaskingIsExact`). Any WHERE and any inner join that does so tells
  two databases that differ in sensitive cells only apart by the number of rows
  (`SqlExposure.SensitiveWhereLeaks`, `SqlExposure.SensitiveInnerJoinLeaks`), and so does a left
  join whose table is joined once in a query with a limit of two rows or more
  (`SqlExposure.SensitiveLeftJoinLeaks`). For the other left joins the condition is sufficient only:
  some of them hide everything (`SqlLeftJoin.LeftJoinMayHide`).

## Model

| member | source | states |
|---|---|---|
| SqlText.LexUnlex | app/sql/sql_policy.py:270 | Printed tokens lex back to the same tokens, so printing a tree loses nothing at the level of text |
| SqlText.UnlexClean | app/sql/sql_policy.py:103-106 | Printed text never trips the raw-text gates: it has no comment marker and no semicolon |
| SqlAst.QueryRoundTrip | app/sql/sql_policy.py:108-116 | Parsing the printed form of any well-formed query, with only the parentheses that precedence needs, gives back that query |
| SqlAst.LevelRoundTrip | app/sql/sql_policy.py:108-116 | With parentheses only around a looser operator, the text printed for each precedence level is read back at that level as the same expression, whatever may follow it |
| SqlAst.ChainRoundTrip | app/sql/sql_policy.py:108-116 | A chain of operators of one level is read leaning left, as it was printed |
| SqlPolicy.BuildQualifySchema | app/sql/sql_policy.py:70-84 | The nested schema holds a column exactly when the catalogue lists it, with the type of the last entry that lists it |
| SqlPolicy.QualifySchemaIsCatalog | app/sql/sql_policy.py:73-78 | The schema handed to the qualifier contains approved objects and nothing else |
| SqlPolicy.CollectTables | app/sql/sql_policy.py:145-155 | The table loop stops at the first refused table with its refusal, and otherwise collects every table name |
| SqlPolicy.CollectColumns | app/sql/sql_policy.py:186-212 | The column loop stops at the first refused column with its refusal, and otherwise collects every column name |
| SqlPolicy.RewriteLimit | app/sql/sql_policy.py:284-299 | The row limit is positive and at most max_rows, equal to the smaller of the requested limit and max_rows, and a dynamic or non-positive limit is refused |
| SqlPolicy.ValidateAndRewrite | app/sql/sql_policy.py:95-282 | The whole pass, in the order it runs, computes the specified verdict, text, fingerprint, tables, columns, sensitivity vector and limit |
| SqlPolicy.QualifyStable | app/sql/sql_policy.py:164-176 | Qualifying a qualified query changes nothing |
| SqlPolicy.CheckQueryStable | app/sql/sql_policy.py:116-268 | On trees, checking the pass's own output gives the same verdict again |
| SqlPolicy.QualifiedColumnsAllowed | app/sql/sql_policy.py:190-212 | After qualification the three column refusals are unreachable: every surviving column is a listed column of a listed table |
| SqlPolicy.ListedColumnIsAccepted | app/sql/sql_policy.py:157-176 | In every allowed schema, selecting any listed column of any listed table, unqualified as generators write it, is accepted with max_rows as the limit |
| SqlPolicy.RevalidationIsFixpoint | app/sql/sql_policy.py:95-282 | Validating the normalised SQL of any accepted query under the same catalogue and config succeeds with the identical record: text, fingerprint, tables, columns, sensitivity, limit |
| SqlMeaning.EvalQualified | app/sql/sql_policy.py:157-176 | Qualification keeps the value of every expression in every joined row of the query |
| SqlMeaning.EnvsQualified | app/sql/sql_policy.py:157-176 | The qualified sources join, inner and left, to exactly the rows of the original sources |
| SqlMeaning.RewritePreservesMeaning | app/sql/sql_policy.py:157-299 | On every database with the catalogued columns and every meaning of its functions and operators, the normalised SQL answers with the first min(requested, max_rows) rows of the original's un-limited answer |
| SqlMeaning.MaskRow | app/sql/sql_result_policy.py:57-63 | A row is masked cell by cell by the lineage vector, and a row of another width is refused |
| SqlMeaning.MaskingIsSound | app/sql/sql_policy.py:226-253 | Two row environments that agree on all non-sensitive columns give the identical masked output row, whatever the aliases and the nesting |
| SqlService.ApprovedQueryAnswersProposal | app/sql/sql_service.py:160-179 | With catalogue and config unchanged, the approved row's stored text answers with the first rows, up to the limit, of what the generated query means |
| SqlService.ApprovedRowsHideSensitiveCells | app/sql/sql_service.py:196-200 | A row of the approved query, masked by the recomputed vector, is the same on two row environments that differ in sensitive cells only |
| SqlService.ApprovedAnswersHideSensitiveCells | app/sql/sql_service.py:196-200 | When the approved text filters and joins on public columns, its whole masked answer is the same on two databases that differ in sensitive cells only |
| SqlPrivacy.EnvsAgree | app/sql/sql_policy.py:226-253 | Inner and left joins on public conditions give, on two databases that look alike, joined rows that look alike, one by one |
| SqlPrivacy.MaskedAnswersAgree | app/sql/sql_result_policy.py:51-63 | For every accepted query whose WHERE and ON read no sensitive column, the masked answers on two databases that differ in sensitive cells only are equal, and no row is refused |
| SqlExposure.MaskingIsExact | app/sql/sql_result_policy.py:51-63 | When every left join on a sensitive column is of a table joined once, with a limit above one, the masked answers to an accepted text are equal on all databases that differ in sensitive cells only, under all meanings of functions and operators, if and only if no WHERE or ON of the stored text reads a sensitive column |
| SqlExposure.SensitiveWhereLeaks | app/sql/sql_policy.py:226-253 | The lineage covers output columns only: for any stored WHERE that reads a sensitive column there are two databases that differ in sensitive cells only and answer with different numbers of rows |
| SqlExposure.SensitiveInnerJoinLeaks | app/sql/sql_policy.py:226-253 | The same for any inner join condition that reads a sensitive column of a source joined by then |
| SqlExposure.SensitiveLeftJoinLeaks | app/sql/sql_policy.py:226-253 | The same for a left join condition, when its table is joined once and two rows may be answered |
| SqlLeftJoin.LeftJoinMayHide | app/sql/sql_policy.py:226-253 | A left join on a sensitive column in an accepted query with limit one, over any two tables of an allowed schema, whose answers never depend on a sensitive cell |
| SqlExecutor.BoundOneRow | app/sql/sql_executor.py:134-146 | A row fits exactly when its bounded cells stay within the byte budget, and the counter includes the cell that overflowed |
| SqlExecutor.Execute | app/sql/sql_executor.py:119-155 | The returned rows are the longest prefix of the cell-bounded result within the row cap and the byte budget, and truncated is true exactly when some row was left out |
| SqlExecutor.OverBudget | app/sql/sql_executor.py:138-146 | Once the cells read so far burst the budget, no longer prefix can fit |
| SqlProposals.ProposalRepository.Create | app/repositories/sql_proposal_repository.py:53-78 | A new identifier is inserted as given, an existing one is refused and nothing changes |
| SqlProposals.ProposalRepository.LockForExecution | app/repositories/sql_proposal_repository.py:90-135 | Only the owner's pending, unexpired row is taken; an expired one is marked so, and every refusal leaves all other rows alone |
| SqlProposals.ProposalRepository.MarkExecuted | app/repositories/sql_proposal_repository.py:137-145 | The row becomes EXECUTED whatever it was, with the time, the row count and the duration recorded and nothing else changed |
| SqlProposals.ProposalRepository.MarkFailed | app/repositories/sql_proposal_repository.py:147-154 | The row's status and error code are overwritten whatever they were |
| SqlProposals.ProposalRepository.Reject | app/repositories/sql_proposal_repository.py:156-172 | Only the owner's pending row is rejected, and anything else is reported and changes nothing |
| SqlProposals.ProposalRepository.ReclaimStaleExecuting | app/repositories/sql_proposal_repository.py:174-198 | Exactly the rows in EXECUTING whose lease is older than the age are failed, and the count returned is how many |
| SqlProposals.Propose | app/sql/sql_service.py:91-120 | The correction loop returns the first attempt that passes policy and planner, each attempt told why the one before it failed, or the last refusal after exactly max attempts |
| SqlProposals.UnchangedApprovalClears | app/sql/sql_service.py:160-179 | An approval under the catalogue and config of the proposal is never denied and clears exactly the stored record |
| SqlProposals.FingerprintBinds | app/sql/sql_policy.py:271-273 | Equal fingerprints mean equal policy version, equal catalogue version and equal text |
| SqlProposals.ClearedRunsStoredText | app/sql/sql_service.py:173-179 | Whatever catalogue and config an approval sees, a row that is cleared runs the very text it stores |
| SqlProposals.ApproveAndExecute | app/sql/sql_service.py:140-233 | A request leaves its row newly in EXECUTING if and only if it took the lock and then the catalogue read or the closing update raised; it runs only the text of a cleared row, records the execution of a completed one, and a disabled one touches nothing |
| SqlProposals.RunLocked | app/sql/sql_service.py:161-213 | With the row and the catalogue in hand, every outcome closes the row, as failed with its code or as executed, unless the closing update raises |
| SqlProposals.LockStepIsTransaction | app/repositories/sql_proposal_repository.py:90-120 | The protocol's lock step does to the stored table what the repository transaction does |
| SqlProposals.RejectStepIsTransaction | app/repositories/sql_proposal_repository.py:156-170 | The protocol's reject step is the repository transaction |
| SqlProposals.ReclaimStepIsTransaction | app/api/sql_proposal_recovery.py:69-74 | The protocol's reclaim step is the repository transaction the background task triggers |
| SqlProposals.FinishStepIsTransaction | app/repositories/sql_proposal_repository.py:137-154 | The protocol's closing step is the unguarded terminal update |
| SqlProposals.ActedKeepsInv | app/sql/sql_service.py:153-233 | Every step of every worker keeps the protocol invariant, a late worker's overwrite of a reclaimed row included |
| SqlProposals.EveryRunIsSafe | app/sql/sql_service.py:153-233 | For any number of workers with crashes, expiry, rejections and reclaims, each status history is lawful, the SQL runs at most once, what runs is the stored text, and it never runs after rejection or expiry |
| SqlProposals.PastIsKept | app/repositories/sql_proposal_repository.py:90-198 | Histories and runs only grow, and a row's text, owner and fingerprint never change |
| SqlProposals.OnlyPlanRuns | app/sql/sql_service.py:177-179 | SQL starts only in the planning step of a worker cleared for the stored text, and it is the first and only run |
| SqlProposals.OnlyOwnerLocksInTime | app/repositories/sql_proposal_repository.py:93-119 | A row enters EXECUTING only by its owner's lock, while pending, before it expires |
| Retries.CreateWithRetries | app/core/llm/chat_client.py:320-392 | At most max_attempts calls, a success or a permanent error ends the loop at once, a transient error is reported only when the attempts or the total time are used up, each call gets the timeout cut to what is left |
| Retries.CallsEndInTime | app/core/llm/chat_client.py:347-357 | With a provider that honours its timeouts, no call under a total timeout ends after the deadline |
| Retries.CallsAreOrdered | app/core/llm/chat_client.py:377-389 | Attempts never overlap, and attempt i + 1 starts exactly the backoff times i after attempt i ended, with or without a deadline, because a pause that the deadline cuts short is never followed by a call |
| Retries.GenerateWithin | app/rag_services/reflection/reflection_critic.py:121-134 | A structured call made with what is left of a deadline is over by that deadline, attempts and pauses included |
| Reflection.DedupeEvidence | app/rag_services/reflection/reflection_engine.py:40-56 | The loop keeps exactly the specified chunks, the cap being tested only after an append |
| Reflection.KeptIsDistinct | app/rag_services/reflection/reflection_engine.py:40-56 | No two kept chunks share source, page and normalised text, and their number is capped |
| Reflection.KeptCovers | app/rag_services/reflection/reflection_engine.py:40-56 | Every offered chunk is represented unless the cap was reached |
| Reflection.KeptExtends | app/rag_services/reflection/reflection_engine.py:49 | Additional evidence never displaces or reorders what was kept of the current evidence |
| Reflection.Judge | app/rag_services/reflection/reflection_engine.py:112-123 | The checks that open a round take one reading each; they stop it for a reason the trace and those readings show, and otherwise the critique and decision follow |
| Reflection.AskCritic | app/rag_services/reflection/reflection_engine.py:121-136 | The critique is on the current answer and evidence, told exactly what its reading leaves of the deadline |
| Reflection.Weigh | app/rag_services/reflection/reflection_engine.py:130-136 | A reading after the critique stops the round exactly when it is late, and then its tokens do when they burst the budget |
| Reflection.Decide | app/rag_services/reflection/reflection_engine.py:138-209 | The policy's action ends the round, an acceptance only after one more reading in time, or sends it on only within the iteration budget |
| Reflection.Retrieve | app/rag_services/reflection/reflection_engine.py:218-236 | One retrieval, with a validated query and between two readings in time, after which the evidence is the deduplicated union |
| Reflection.Rework | app/rag_services/reflection/reflection_engine.py:237-250 | A revision starts only after a reading in time and within the tokens |
| Reflection.CallReviser | app/rag_services/reflection/reflection_engine.py:251-263 | The revision is told exactly what its reading leaves of the deadline, and one after which the next reading is late is dropped with its tokens |
| Reflection.Reflect | app/rag_services/reflection/reflection_engine.py:91-263 | For any collaborators and any clock, the run terminates, is a legal trace of that clock's numbered readings, and its outcome or exception is the one the trace and its last reading call for |
| Reflection.ReflectionIsBounded | app/rag_services/reflection/reflection_engine.py:99-263 | At most max_iterations revisions, max_iterations + 1 critiques and the effective number of retrievals, and tokens spent within the budget plus the last call's cost, even for collaborators that ignore every budget |
| Reflection.CallsStartInTime | app/rag_services/reflection/reflection_engine.py:112-123 | No call starts once a reading is late: every reading up to the one a call stands on was before the deadline, and a timed call is told exactly what that reading leaves |
| Reflection.TicksIncrease | app/rag_services/reflection/reflection_engine.py:112-263 | Every call and decision stands on a later reading than the one before it |
| Reflection.StopsAtFirstLateReading | app/rag_services/reflection/reflection_engine.py:266-271 | An outcome blames the deadline exactly when the last reading taken is late, and it is the first late one |
| Reflection.LateStartMakesNoCall | app/rag_services/reflection/reflection_engine.py:112-113 | A request whose first check is already late calls nobody |
| Reflection.CallsFinishInTime | app/rag_services/reflection/reflection_critic.py:118-134 | Every provider call in the retry schedule of a critique or a revision, started at the reading it stands on, ends by the engine's deadline, when the provider honours its timeouts |
| Reflection.MakeTimedCall | app/rag_services/reflection/reflection_critic.py:118-134 | The retry loop behind a critique or a revision starts all its calls before the engine's deadline and, with an honest provider, is over by it, pauses included |
| Reflection.AcceptanceIsSound | app/rag_services/reflection/reflection_critic.py:178-219 | With the threshold policy, an accepted answer is the very answer and evidence the last critique examined, that critique met every threshold with no unsupported claim, the tokens were within budget, and every reading was before the deadline, one taken after the decision included |
| Reflection.OtherwiseAbstains | app/rag_services/reflection/reflection_engine.py:273-319 | Every outcome that is not accepted carries the fixed abstention text |
| Reflection.PassingCritiqueIsAccepted | app/rag_services/reflection/reflection_engine.py:130-209 | A critique that meets every threshold is the last, and its answer is accepted if and only if it came back within the tokens and the next two readings are in time |
| Reflection.FailSafeReflect | app/rag_services/reflection/reflection.py:236-265 | Only an exception of the stage degrades, to the untouched initial answer and evidence, marked fallback and not accepted |
| AnswerKeys.TokensDecode | app/rag_services/rag_service.py:511-579 | The parts of a namespace determine its strategy, corpus version, cohorts, delegates and widths |
| AnswerKeys.PartsDecode | app/rag_services/rag_service.py:1347-1361 | top_k is the first all-digit part, so it marks where the namespace ends whatever the question contains |
| AnswerKeys.KeyInjective | app/rag_services/rag_service.py:1347-1361 | Two requests share a cache key only if they agree on every segment, on top_k and on the normalised question |
| AnswerCache.BuildNamespace | app/rag_services/rag_service.py:511-579 | The namespace built feature by feature is the flattened typed namespace of the captured snapshot |
| AnswerCache.CollectCandidates | app/repositories/semantic_cache_repository.py:127-159 | The loop returns the keys down to the first point below the threshold |
| AnswerCache.ClearingIsThePrefix | app/repositories/semantic_cache_repository.py:144-151 | Nearest first, every returned key clears the threshold and the first one left out does not |
| AnswerCache.GateIsClean | app/rag_services/rag_service.py:1192-1213 | A response may be cached exactly when no stage fell back, abstained or used the web, reflection accepted and nothing was blocked |
| AnswerCache.NextKeepsInv | app/rag_services/rag_service.py:581-603 | Every step keeps the store's, the index's and the workers' part of the invariant, index pointers included |
| AnswerCache.EveryHitHasProvenance | app/rag_services/rag_service.py:1363-1442 | Under any interleaving with failed reads and writes, expiries, clears and crashes, every exact or semantic hit returns a clean response made under the requester's own namespace and top_k |
| AnswerCache.HitsNeverCrossCohorts | app/rag_services/rag_service.py:511-579 | In terms of two snapshots, a hit never crosses a strategy, a corpus version, a cohort, a reranking pool or a reflection width |
| AnswerCache.HitsShareCorrection | app/rag_services/crag/dynamic_corrective_retriever.py:22-49 | A hit may come from a worker with the other web toggle, but a cacheable correction behind it is the one the asking worker would have made |
| QueryCache.PrefixesAreApart | app/services/query_cache_service.py:168-171 | No tier's prefix starts another tier's keys |
| QueryCache.QueryCacheService.Get | app/services/query_cache_service.py:131-138 | A read returns what the tier holds, changes no entry, and counts one hit or one miss |
| QueryCache.QueryCacheService.Set | app/services/query_cache_service.py:140-143 | A write is seen by its own tier under its own key and by nobody else |
| QueryCache.QueryCacheService.ClearTiers | app/services/query_cache_service.py:153-166 | Clearing empties exactly the named tiers, zeroes exactly their counters, and reports per tier how many keys it held, or zero for a tier named again |
| Sentences.SplitSentencesSound | app/rag_services/crag/crag_refiner.py:52-56 | The sentences are non-empty and already stripped, and joined they are the whitespace-normalised text |
| Crag.GradeChunks | app/rag_services/crag/crag_retrieval_grader.py:111-199 | The retry loop computes the first usable grade |
| Crag.GradingRetriesOnce | app/rag_services/crag/crag_retrieval_grader.py:132-199 | Malformed output costs one more attempt and no more, and any other exception ends grading at once |
| Crag.GradedIsExact | app/rag_services/crag/crag_retrieval_grader.py:149-178 | A returned grade covers exactly the chunks shown, with support when CORRECT and without when INCORRECT |
| Crag.Refine | app/rag_services/crag/crag_refiner.py:89-166 | The loop turns selections into evidence, dropping unknown documents and empty picks only |
| Crag.AscendingHasAll | app/rag_services/crag/crag_refiner.py:198-213 | Every valid sentence index is kept, in ascending order |
| Crag.LocalEvidenceIsExtractive | app/rag_services/crag/crag_refiner.py:89-129 | Every local evidence text is the join of a strictly increasing pick of sentences of one chunk graded supportive at or above the threshold, with that chunk's source, page and score |
| Crag.IncorrectLeavesNothing | app/rag_services/crag/corrective_retriever.py:139-145 | INCORRECT grades leave nothing to extract if and only if the refiner's threshold is not below the grading stage's |
| Crag.ServedEvidenceIsSupported | app/rag_services/crag/corrective_retriever.py:119-228 | An applied, non-abstaining outcome has at least min_evidence items, all cut from supportive chunks unless the web was used |
| Crag.IncorrectIsNeverServedLocally | app/api/deps.py:285-316 | With one threshold for both stages an INCORRECT grade is never answered from local evidence |
| Crag.WebIsServedOnlyRegraded | app/rag_services/crag/corrective_retriever.py:193-215 | Web evidence is served only after a CORRECT grade of everything served |
| Crag.WebEvidenceIsExtractive | app/rag_services/crag/crag_refiner.py:131-166 | When the web is used, everything beyond the local evidence is a pick of sentences of one result of the search for the formulated query, with that result's title, address and score |
| Crag.WebToggleCannotLeak | app/rag_services/crag/crag.py:231-261 | If the outcome with either toggle may be cached, both outcomes are identical, whatever the oracles answer or raise |
| Crag.SegmentDecidesCacheableOutcome | app/rag_services/crag/dynamic_corrective_retriever.py:22-49 | Two snapshots with the same namespace segment cannot disagree on an outcome that may be cached |
| Quarantine.VectorStore.UpsertChunks | app/repositories/vector_repository.py:136-161 | The new chunks are added with the given visibility, each wherever its random id falls in the listing order, and the old ones keep theirs |
| Quarantine.VectorStore.SetIngestionStatus | app/repositories/vector_repository.py:258-272 | Point by point, a chunk of the source has the new visibility and every other chunk is unchanged |
| Quarantine.VectorStore.DeleteBySource | app/repositories/vector_repository.py:274-284 | No chunk of the source is left, and what is left is every other chunk, in order |
| Quarantine.SecurityRepository.GetLatestForSource | app/repositories/document_security_repository.py:161-169 | A row of the source after which no other row of it was inserted, or nothing when it has none |
| Quarantine.PolicyIngestionService.Ingest | app/services/policy_ingestion_service.py:83-120 | An accepted document is inserted after the old chunks are deleted, if the listed page shows one; a refused one changes nothing |
| Quarantine.PolicyIngestionSecurityService.Submit | app/services/policy_ingestion_security_service.py:67-100 | An upload has exactly the specified effect on chunks and rows, and a refused one has none |
| Quarantine.PolicyIngestionSecurityService.Approve | app/services/policy_ingestion_security_service.py:102-112 | Approval is granted exactly for a latest row in scan_passed, and then activates the source's chunks |
| Quarantine.PolicyIngestionSecurityService.Reject | app/services/policy_ingestion_security_service.py:114-123 | Rejection is granted exactly for a latest row in scan_passed or scan_failed, and then removes the source's chunks |
| Quarantine.WithinOnePage | app/services/policy_ingestion_service.py:83-113 | While the collection and the upload fit one scroll page, replacement leaves exactly the new chunks and the scanner is shown exactly them |
| Quarantine.SubmitOwnExactly | app/services/policy_ingestion_security_service.py:67-100 | An accepted upload leaves its source as its row says if and only if the scanner blocks what it is shown, or every chunk of the source is quarantined and on the page read back |
| Quarantine.SubmitKeepsInvExactly | app/services/policy_ingestion_security_service.py:67-100 | An upload keeps the quarantine invariant of every source if and only if it is refused or sound |
| Quarantine.FittingIsExact | app/services/policy_ingestion_security_service.py:128-136 | Before an upload, it is certain to be sound, whatever its random ids and the scanner, if and only if its old chunks go or are quarantined and all quarantined chunks then fit one page |
| Quarantine.ScannerSeesUpload | app/services/policy_ingestion_security_service.py:128-136 | After a complete replacement the scanner is shown exactly the uploaded texts if and only if no new chunk is off the page |
| Quarantine.RunKeepsInvExactly | app/services/policy_ingestion_security_service.py:67-136 | All through a run, scan_passed means all chunks quarantined and exactly those scanned, active means all active, scan_failed and rejected mean none, if and only if every upload is refused or sound |
| Quarantine.RunFitsExactly | app/services/policy_ingestion_security_service.py:67-136 | Whatever the random ids and the scanner, the same invariant holds all through a run if and only if every upload is refused or fits, as can be checked before it |
| Quarantine.SearchableWasScannedAndApproved | app/services/policy_ingestion_security_service.py:67-123 | In such a run, an uploaded chunk that search can see was scanned with that very text, passed, and was approved |
| Quarantine.ReplacementIsComplete | app/services/policy_ingestion_service.py:85-107 | Replacement removes the old chunks if and only if one of them is on the scrolled page or there are none |
| Quarantine.StaleChunkBeyondOnePage | app/services/policy_ingestion_service.py:85-107 | For every page size, one chunk more than a page is enough for an upload that leaves an old searchable chunk behind |
| Quarantine.UnscannedBeyondOnePage | app/repositories/vector_repository.py:241-247 | For every page size, a page of other waiting chunks is enough for an upload that no scanner is shown, that passes, and whose text is searchable after approval |
| RagOps.ComputeDiff | app/repositories/rag_ops_repository.py:425-432 | The loop over the listed fields records every changed field with its old and new value, and no other |
| RagOps.RagOpsRepository.UpdateConfig | app/repositories/rag_ops_repository.py:159-280 | A partial update is merged under the lock, refused when it breaks a dependent flag, and audited exactly when a field changed |
| RagOps.RagOpsRepository.SetEmergencyDisabled | app/repositories/rag_ops_repository.py:282-313 | The switch is set and always audited |
| RagOps.RagOpsRepository.SetSafetyLockdown | app/repositories/rag_ops_repository.py:315-346 | The switch is set and always audited |
| RagOps.RagOpsRepository.BumpCorpusVersion | app/repositories/rag_ops_repository.py:348-372 | The version grows by one and the new value is audited |
| RagOps.RagOpsRepository.RecordCacheInvalidation | app/repositories/rag_ops_repository.py:374-393 | Only the timestamp changes and nothing is audited |
| RagOps.AuditReplaysToRow | app/repositories/rag_ops_repository.py:159-372 | From any initial row, folding the recorded new values in commit order rebuilds every updatable field, both kill switches and the corpus version |
| RagOps.OldValuesChain | app/repositories/rag_ops_repository.py:276-278 | What an entry calls old is what the log up to it says, and an entry is written only for a real change |
| RagOps.ReachableRowsAreOk | app/controllers/rag_ops_controller.py:135-233 | Bounds and dependent flags hold in every reachable row, even when each update was judged against a stale snapshot |
| RagOps.SnapshotNeverRaises | app/rag_services/rag_runtime_config.py:104-141 | Building the runtime snapshot raises in no reachable state |
| RagOps.RagOpsController.UpdateConfig | app/controllers/rag_ops_controller.py:135-233 | An accepted update is persisted and pushed to the request paths, and a refused one changes neither |
| RateLimiter.InMemorySlidingWindowRateLimiter.IsAllowed | app/core/security/rate_limiter.py:46-65 | One call prunes, decides and records on its own bucket and no other |
| RateLimiter.RaisesExactly | app/core/security/rate_limiter.py:56-61 | One call raises if and only if the limit is not positive and no unexpired hit is left |
| RateLimiter.BucketRaisesExactly | app/core/security/rate_limiter.py:53-65 | Whatever the run before and the clock, the next call on a bucket raises if and only if its limit is not positive |
| RateLimiter.AtMostLimitInAnyWindow | app/core/security/rate_limiter.py:53-65 | Over whole runs with a monotone clock, every closed interval of window length holds at most limit allowed calls |
| RateLimiter.RefusedOnlyWhenFull | app/core/security/rate_limiter.py:60-61 | A call is refused only when limit allowed calls lie in the window that ends now |
| RateLimiter.ResetTimeIsHonest | app/core/security/rate_limiter.py:60-65 | A call strictly after a refusal's reset time is allowed if nothing was allowed in between |
| Embeddings.KeyInjective | app/core/llm/embedding_client.py:127-135 | Two texts share a cache key only under the same model and when they are equal |
| Embeddings.MissesAreDistinct | app/core/llm/embedding_client.py:64-74 | Each distinct missed text is sent once and nothing else is sent |
| Embeddings.CompleteCovers | app/core/llm/embedding_client.py:75-83 | A reply fills every missed position if and only if it answers every text of the batch |
| Embeddings.OpenAIEmbeddingClient.EmbedTexts | app/core/llm/embedding_client.py:51-89 | The result is the embedding of each text, position by position, or an error; an index outside the batch and a gap raise; and the cache stays coherent whichever reads and writes fail |
| Luhn.LuhnValid | app/guardrails/sensitive_data.py:44-53 | The loop accepts exactly the strings whose weighted total is a multiple of ten |
| Luhn.SingleChangeDetected | app/guardrails/sensitive_data.py:44-53 | Changing any one digit of a valid string makes it invalid |
| Luhn.AdjacentSwapDetected | app/guardrails/sensitive_data.py:44-53 | Swapping two adjacent digits of a valid string goes unnoticed exactly when they are equal or are 0 and 9 |
| Luhn.OneCheckDigit | app/guardrails/sensitive_data.py:44-53 | Every prefix has exactly one check digit that completes it |

## Left out

- SqlMeaning.RewritePreservesMeaning: the row semantics has select lists, inner and left joins, WHERE and LIMIT; aggregates, GROUP BY, ORDER BY, DISTINCT and OFFSET are not in the subset.
- SqlAst.QueryRoundTrip: the parser and printer are this project's own for the accepted subset; sqlglot's internals, its spacing, redundant parentheses (which it keeps and this printer drops), quoted identifiers, unary minus and casts are not modelled, and CTEs, subqueries, set operations and lateral joins are parse errors here rather than separate refusals.
- SqlPolicy.BuildQualifySchema: catalogue names are lower-cased before they are entered, which is what the qualifier does when it normalises them.
- SqlPolicy.CollectTables: the collected names are a set; sorting them into a tuple is left out.
- SqlPrivacy.MaskedAnswersAgree: it is about the masked rows before the result is bounded; the byte budget counts unmasked cells, so how many rows are returned may depend on sensitive ones.
- SqlExposure.MaskingIsExact: for a left join on a sensitive column with limit one, or of a table that is joined under several aliases, the condition is sufficient only.
- SqlPolicy.ValidateAndRewrite: text that does not lex is refused as a parse error here; the code catches the parser's errors only, so a tokenizer error such as an unterminated literal would escape from a generation attempt as another exception. Stored text always lexes.
- SqlExecutor.Execute: plan-cost gates, transaction settings and timings are not modelled.
- SqlProposals.ReclaimStepIsTransaction: the schedule of the background task is not modelled; a reclaim may happen at any time with any age.
- Retries.CreateWithRetries: the time spent between a call and a clock reading is taken to be zero, so the bound is on calls and pauses.
- Reflection.Reflect: one Python method is split into one method per phase; the readings that only measure durations for the outcome are not modelled, and the query validation and the lexical claim checker are arbitrary functions.
- AnswerCache.BuildNamespace: the running text is kept as its list of parts until the end; guardrail mode is not part of the namespace in the code, so the results are about provenance under the namespace as it is.
- AnswerCache.EveryHitHasProvenance: the vector search is any ranking of points of the partition, and generation is any response with any flags.
- AnswerKeys.KeyInjective: the static planners of the evaluation harness are not modelled, only the production ones.
- QueryCache.QueryCacheService.Set: time-to-live is not modelled; an entry may expire at any time in AnswerCache.
- Crag.Refine: local and web refinement share one loop here; whitespace is ASCII.
- Crag.WebToggleCannotLeak: grader, refiner, query formulator and search answer the same question the same way in both runs.
- Quarantine.RunKeepsInvExactly: operations run to completion; a crash between two steps of one operation is not modelled, uploads are ordered by insertion instead of a timestamp, and a chunk's random id is modelled by the place it takes in the listing order.
- RagOps.AuditReplaysToRow: reasons, actors and timestamps of the row are not rebuilt from the log, and values survive the JSON column unchanged.
- RagOps.RagOpsController.UpdateConfig: other workers' polling is left out; the snapshot the controller read may be any row.
- RateLimiter.InMemorySlidingWindowRateLimiter.IsAllowed: the lock is not modelled; calls are one at a time. The Upstash limiter is not part of this model.
- Embeddings.OpenAIEmbeddingClient.EmbedTexts: the provider's own retries are one call here.
- Prompts, LLM output quality, scanner models, retrieval fusion, HyDE generation, reranking, confidence scores, telemetry, routing, authentication and HTTP plumbing are not modelled.
