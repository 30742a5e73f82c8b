# Memory, prompts and accounts of the chat companion back end

This project models the back end of a chat companion ("智子"). It covers:

- the two generations of its long-term memory;
- the wrapper that fails over between those two memories;
- the two prompt assemblers;
- the post-processing of the language model's reply;
- the account tables that tie a user's email to a memory collection.

The pieces are modelled as follows:

- **The v2 memory manager** (module `MemoryStore`, class `MemoryManagerV2`) keeps per-user records in one shared collection.
  - Every write is followed by a pruning pass. Rule 1 expires old `shortterm` and `history` records. Rule 2 evicts the least important records beyond the per-user cap.
  - Every read re-ranks the similarity candidates by a weighted score, then writes back their access time.
  - The records, the pruning policy and the scoring are pure functions in module `MemoryRecords`.
  - The collection's own `add` / `update` / `delete` / `get` semantics are in module `ChromaStore`.
  - The collection object is a class (`MemoryStore.Collection`) whose methods are proved against those functions.
- **The v1 memory manager** (module `LegacyStore`, class `MemoryManager`) stores chat turns as documents in a named collection.
  - Its relevance rule combines a thirty-day expiry, two negative words and the mood of the turn.
  - Its clean-up pass deletes every stored document that fails that rule against the "idle" mood.
- **The failover wrapper** (module `Resilience`):
  - selects v2 or v1 from two override flags and the presence of v2;
  - forwards each call, catching failures and falling back to a v1 instance, then to v1 module-level functions, then to a neutral value;
  - answers `health_check` and forwards unknown attributes.
- **The prompt builder** (module `Prompts`) joins these pieces in a fixed order: a persona, an emotion section, a memory section, the last `max_history` turns and the user's message.
- **The chat prompt generator** (module `ChatPrompt`) cuts the hobby passages out of the persona in the scholar states, then lays the persona, the state, the memories and the message into a fixed template.
- **Reply post-processing** (module `Reply`) cleans the reply: it drops line breaks, halves double spaces and strips the ends. A reply longer than 90 characters is cut after the last sentence mark in its second half, or hard-cut with "...". A failed generation gives a fixed apology.
- **The account tables** (module `Accounts`, class `Session`) hold users with a unique email and collections with a unique name. The name is derived from the email.

Modules `Seqs` and `Text` model the Python list and string behaviour the code relies on:

- filtering;
- Python's stable `sort`;
- `str.replace` as one left-to-right, non-overlapping pass;
- `str.strip` over Unicode whitespace;
- `str.join`;
- integer formatting.

## Model

| member | source | states |
|---|---|---|
| MemoryRecords.NewRecord | backend/memory_manager_v2.py:67-78 | the stored metadata carries the user, type and content, `tags or []`, the given importance, and `created_at == last_access == ts` |
| MemoryRecords.MemoryIdInjective | backend/memory_manager_v2.py:65 | two ids `user_ts_hash` are equal only when user, second and fingerprint all agree |
| MemoryRecords.RuleOneSurvivors | backend/memory_manager_v2.py:169-185 | the entries not yet in `to_delete` are exactly the unexpired ones, and there are `len(ids) - len(to_delete)` of them |
| MemoryRecords.DefaultTypeExpiresFirst | backend/memory_manager_v2.py:23-53 | under the default limits a record of the default type "history" has expired at an age between 601 and 1800 seconds, when a "shortterm" record of that age has not |
| MemoryRecords.DurableTypesNeverExpire | backend/memory_manager_v2.py:169-177 | a record whose type is neither `shortterm` nor `history` is never expired by rule 1 |
| MemoryRecords.ExpiredIdsStep | backend/memory_manager_v2.py:170-177 | one more entry through rule 1 appends its id exactly when it is expired |
| MemoryRecords.CapacityVictimsArePrefix | backend/memory_manager_v2.py:180-191 | rule 2 marks the first `excess` survivors in ascending importance order |
| MemoryRecords.CapacityVictimCount | backend/memory_manager_v2.py:180-191 | rule 2 marks `survivors - cap` entries when survivors exceed the cap, otherwise none |
| MemoryRecords.PruneDeletesExpired | backend/memory_manager_v2.py:169-191 | every expired entry is deleted; a deleted entry is expired or a rule 2 victim; rule 2 never picks an expired one |
| MemoryRecords.PruneWithinCapIsTtlOnly | backend/memory_manager_v2.py:180-191 | when at most the cap survive rule 1, pruning deletes exactly the expired ids |
| MemoryRecords.VictimsFromListing | backend/memory_manager_v2.py:159-191 | pruning only ever names ids from the user's own listing |
| MemoryRecords.KeptAreRankedSuffix | backend/memory_manager_v2.py:180-196 | what pruning keeps is, up to order, the importance-sorted survivors after the evicted prefix |
| MemoryRecords.PruneCapacity | backend/memory_manager_v2.py:180-196 | after pruning the user holds `min(#unexpired, cap)` records, and no evicted unexpired record is more important than a kept one |
| MemoryRecords.RecencyBounds | backend/memory_manager_v2.py:117 | recency lies in [0, 1], is 1 exactly for an access this second, and is 0 after a day |
| MemoryRecords.CloserScoresHigher | backend/memory_manager_v2.py:115-123 | at equal recency and importance, the smaller cosine distance scores strictly higher |
| MemoryRecords.ScoreCandidate | backend/memory_manager_v2.py:119-130 | a processed entry carries the candidate id, its document, the metadata with `last_access = now`, and the weighted score |
| MemoryRecords.TopRankedSize | backend/memory_manager_v2.py:140-143 | retrieval returns `min(limit, n)` entries, all drawn from the scored candidates |
| MemoryRecords.TopRankedBestFirst | backend/memory_manager_v2.py:140-143 | the returned entries are in non-increasing score order |
| MemoryRecords.TopRankedDominates | backend/memory_manager_v2.py:140-143 | every candidate left out scores no higher than every returned one |
| MemoryRecords.TopRankedKeepsTies | backend/memory_manager_v2.py:140 | the reverse sort is stable: returned entries of equal score keep candidate order and are the first of that score |
| ChromaStore.AddOne | backend/memory_manager_v2.py:67-78 | a new id is stored and listed last; an existing id leaves the collection unchanged |
| ChromaStore.UpdateOne | backend/memory_manager_v2.py:134-137 | a stored id gets its new metadata and the listing order is kept; an unknown id changes nothing |
| ChromaStore.DeleteOne | backend/memory_manager_v2.py:150 | the id is removed from the records and from the order, and everything else stays |
| ChromaStore.DeleteAll | backend/memory_manager_v2.py:194-196 | deleting ids one at a time removes exactly those ids |
| ChromaStore.ListingDistinct | backend/memory_manager_v2.py:159-161 | a user's listing never repeats an id |
| ChromaStore.ListingAfterAdd | backend/memory_manager_v2.py:67-78 | `add` appends the new record to its owner's listing and to no other |
| ChromaStore.ListingAfterDelete | backend/memory_manager_v2.py:150 | `delete(ids=[id])` removes exactly that id from every listing |
| ChromaStore.ListingAfterDeleteAll | backend/memory_manager_v2.py:194-196 | deleting a list of ids removes exactly those ids from a listing, keeping its order |
| ChromaStore.ListingUntouched | backend/memory_manager_v2.py:194-196 | deleting ids owned by other users leaves a listing as it was |
| ChromaStore.ListOfOtherOwner | backend/memory_manager_v2.py:133-137 | rewriting a record without changing its owner leaves every other owner's listing as it was |
| MemoryStore.Collection.Add | backend/memory_manager_v2.py:67-78 | the collection object's state becomes `AddOne` of its old state |
| MemoryStore.Collection.Update | backend/memory_manager_v2.py:134-137 | the collection object's state becomes `UpdateOne` of its old state |
| MemoryStore.Collection.Delete | backend/memory_manager_v2.py:150 | the collection object's state becomes `DeleteOne` of its old state |
| MemoryStore.MemoryManagerV2.constructor | backend/memory_manager_v2.py:23-41 | the manager opens the persistent collection as it is and keeps the given limits, by default 500 records per user, 1800 s for "shortterm" and 600 s for "history" |
| MemoryStore.MemoryManagerV2.AddMemory | backend/memory_manager_v2.py:47-83 | returns id `user_ts_hash`; the collection becomes the pruned state of the old one plus the new record, which by default is a "history" record with no tags and importance 0.3 |
| MemoryStore.AddMemoryEffect | backend/memory_manager_v2.py:47-83 | after `add_memory` the user's listing is the pruning survivors of the old listing plus the new record, and other users' listings are unchanged |
| MemoryStore.AddMemoryRespectsCap | backend/memory_manager_v2.py:47-83 | after `add_memory` the user never holds more than `max_items_per_user` records |
| MemoryStore.MemoryManagerV2.RetrieveRelevantMemories | backend/memory_manager_v2.py:85-143 | given the at most `3 * limit` candidates the query asks for (`limit` is 5 by default), the result is the top `limit` scored candidates, scored from the metadata as queried; every candidate's `last_access` becomes `now`, including those not returned |
| MemoryStore.Processed | backend/memory_manager_v2.py:112-130 | one scored entry per candidate, in candidate order |
| MemoryStore.TouchAll | backend/memory_manager_v2.py:133-137 | the candidates' records get `last_access = now`; the other records and the order are unchanged |
| MemoryStore.RetrieveKeepsOthers | backend/memory_manager_v2.py:132-137 | retrieval leaves every other user's listing as it was |
| MemoryStore.MemoryManagerV2.ClearUserMemory | backend/memory_manager_v2.py:145-150 | every id of the user's listing is deleted |
| MemoryStore.ClearEffect | backend/memory_manager_v2.py:145-150 | after clearing, the user's listing is empty and every other listing is unchanged |
| MemoryStore.MemoryManagerV2.DeleteEach | backend/memory_manager_v2.py:149-150 | deleting the ids one at a time gives `DeleteAll` of them |
| MemoryStore.MemoryManagerV2.PruneUserMemory | backend/memory_manager_v2.py:156-196 | the collection becomes the old one minus the user's pruning victims |
| MemoryStore.MemoryManagerV2.MarkExpired | backend/memory_manager_v2.py:169-177 | rule 1 collects the ids of the expired entries in listing order |
| MemoryStore.MemoryManagerV2.MarkOverCapacity | backend/memory_manager_v2.py:179-191 | rule 2 appends the ids of the least important survivors beyond the cap |
| MemoryStore.ListingOwned | backend/memory_manager_v2.py:159 | every id in a user's listing is stored and owned by that user |
| MemoryStore.PruneStateEffect | backend/memory_manager_v2.py:156-196 | pruning leaves the user exactly the survivors in listing order, and other users' listings as they were |
| LegacyStore.CheckMemoryRelevance | backend/memory_manager.py:68-82 | relevant exactly when the memory is not expired, contains neither "失望" nor "生气", and has the current mood |
| LegacyStore.RelevantToOneState | backend/memory_manager.py:79-82 | a memory is relevant to at most one mood |
| LegacyStore.RelevanceDecays | backend/memory_manager.py:68-82 | a memory irrelevant at some time stays irrelevant later |
| LegacyStore.ToMemory | backend/memory_manager.py:93-100 | the temporary memory takes the id and document; state defaults to "idle"; a missing stamp means "now" and is never expired; an unparsable stamp fails |
| LegacyStore.CleanUpVictims | backend/memory_manager.py:89-106 | the clean-up deletes no more ids than there are documents |
| LegacyStore.CleanUpStep | backend/memory_manager.py:92-104 | one more readable document appends its id exactly when it fails the relevance rule |
| LegacyStore.CleanUpVictimsAppend | backend/memory_manager.py:92-104 | over readable documents, the deletions of a concatenation are the deletions of its parts |
| LegacyStore.CleanUpStopsAtBadStamp | backend/memory_manager.py:98-106 | an unparsable stamp ends the pass; nothing from there on is deleted |
| LegacyStore.CleanUpSparesAfterBadStamp | backend/memory_manager.py:89-106 | every document at or after the first unparsable stamp survives |
| LegacyStore.CleanUpKeepsRelevant | backend/memory_manager.py:92-104 | with every stamp readable, the pass keeps exactly the documents relevant to "idle", in order |
| LegacyStore.VictimsAreListed | backend/memory_manager.py:92-103 | every deleted id is an id of the collection |
| LegacyStore.MemoryContentLayout | backend/memory_manager.py:42 | the document shows the user message, the reply and the mood, each behind its label |
| LegacyStore.GetOrCreate | backend/memory_manager.py:25-29 | a non-empty name is present afterwards and created empty if missing; existing collections are untouched |
| LegacyStore.Resolve | backend/memory_manager.py:25-29 | a collection is bound exactly when the name is non-empty |
| LegacyStore.MemoryManager.constructor | backend/memory_manager.py:19-23 | keeps the name and binds its collection when the name is non-empty |
| LegacyStore.MemoryManager.SetCollectionByName | backend/memory_manager.py:31-34 | records the name and rebinds (creating if needed) |
| LegacyStore.MemoryManager.AddMemory | backend/memory_manager.py:36-57 | without a collection nothing changes; otherwise the labelled document is appended, stamped and with its mood, unless its id is taken |
| LegacyStore.MemoryManager.RetrieveRelevantMemories | backend/memory_manager.py:59-66 | `[[]]` without a collection, otherwise the query's answer as the single row, holding at most `n_results` documents (3 by default) |
| LegacyStore.MemoryManager.DeleteDocument | backend/memory_manager.py:103 | exactly the document with that id leaves the named collection |
| LegacyStore.DeleteById | backend/memory_manager.py:103 | deleting one more id from the remaining documents equals filtering the snapshot by the longer deletion list |
| LegacyStore.MemoryManager.CleanUpMemory | backend/memory_manager.py:84-106 | without a collection nothing changes; otherwise the collection loses exactly the clean-up victims, and all other collections are untouched |
| LegacyStore.MemoryManager.Visit | backend/memory_manager.py:95-104 | one pass step deletes the document when it fails the rule, and extends the victim list accordingly |
| LegacyStore.MemoryManager.DeleteIrrelevant | backend/memory_manager.py:89-106 | the pass over a snapshot removes exactly its victims from the named collection |
| Resilience.Select | backend/memory_manager_wrapper.py:115-120 | forcing v1 wins; otherwise forcing v2 selects v2; otherwise v2 is selected exactly when it was loaded |
| Resilience.MemoryManagerWrapper.constructor | backend/memory_manager_wrapper.py:46-48 | both overrides start off, and the loaded backends are kept |
| Resilience.MemoryManagerWrapper.ForceUseV1 | backend/memory_manager_wrapper.py:122-127 | sets the v1 override; enabling it clears the v2 override; the two are never on together |
| Resilience.MemoryManagerWrapper.ForceUseV2 | backend/memory_manager_wrapper.py:129-134 | sets the v2 override; enabling it clears the v1 override and selects v2; afterwards the two overrides are never on together |
| Resilience.Fallback | backend/memory_manager_wrapper.py:150-162 | the v1 instance answers when it offers the call and succeeds; the module answers only when the instance lacks the call; otherwise the neutral value |
| Resilience.Dispatch | backend/memory_manager_wrapper.py:139-162 | v2 answers exactly when it is selected, offers the call and succeeds; otherwise the v1 fallback decides |
| Resilience.MemoryManagerWrapper.AddMemory | backend/memory_manager_wrapper.py:139-162 | the dispatched answer, with None as the neutral value |
| Resilience.MemoryManagerWrapper.RetrieveRelevantMemories | backend/memory_manager_wrapper.py:164-184 | the dispatched answer, with `[]` as the neutral value |
| Resilience.MemoryManagerWrapper.ClearUserMemory | backend/memory_manager_wrapper.py:186-204 | the dispatched answer, with False as the neutral value |
| Resilience.MemoryManagerWrapper.DeleteMemory | backend/memory_manager_wrapper.py:207-225 | the dispatched answer, with False as the neutral value |
| Resilience.MemoryManagerWrapper.HealthCheck | backend/memory_manager_wrapper.py:228-255 | v2 is healthy exactly when loaded; v1 is healthy exactly when the instance or the module offers retrieval; reports the active backend |
| Resilience.Forward | backend/memory_manager_wrapper.py:258-276 | private names raise; otherwise the selected v2, then the v1 instance, then the module supply the attribute, and a name none offers raises |
| Resilience.MemoryManagerWrapper.GetAttr | backend/memory_manager_wrapper.py:258-276 | attribute forwarding follows `Forward` with the current selection |
| Resilience.DispatchResultIsKnown | backend/memory_manager_wrapper.py:139-162 | a wrapper result is always some backend's value or the neutral value; no exception escapes |
| Resilience.V2FailureFallsBack | backend/memory_manager_wrapper.py:143-162 | when v2 is unselected, lacks the call or fails, the v1 chain alone decides the result |
| Resilience.ForcedMissingV2UsesV1 | backend/memory_manager_wrapper.py:139-162 | forcing v2 with no v2 loaded still reaches v1 |
| Resilience.NoBackendGivesNeutral | backend/memory_manager_wrapper.py:139-162 | when no backend offers the call, the neutral value comes back |
| Resilience.ForcedV1NeverReachesV2 | backend/memory_manager_wrapper.py:122-127 | with the v1 override on, neither calls nor attribute lookups reach v2 |
| Resilience.ShippedDeleteMemoryIsFalse | backend/memory_manager_wrapper.py:207-225 | with the backends as shipped, `delete_memory` always returns False |
| Resilience.ShippedFallbackIsNeutral | backend/memory_manager_wrapper.py:85-96 | as shipped, the v1 class cannot be instantiated without arguments and the v1 module has no functions, so a failing v2 call gives the neutral value |
| Resilience.ShippedRetrieveIsMissing | backend/memory_manager_wrapper.py:258-276 | as shipped, no backend offers `retrieve`, so forwarding it raises |
| Reply.CollapseHasNoBreaks | backend/ai_manager.py:37 | the three replacements leave no '\n' and no '\r' |
| Reply.CleanShape | backend/ai_manager.py:37 | a cleaned reply has no line breaks and no whitespace at either end |
| Reply.ThreeSpacesLeaveTwo | backend/ai_manager.py:37 | the double-space replacement is one non-overlapping pass, so three spaces become two |
| Reply.Truncate | backend/ai_manager.py:40-50 | a reply of at most 90 characters is kept; a longer one is cut after the last truncate mark at an index from 46 to 89, or else hard-cut to 90 characters plus "..."; either way at most 93 characters, and a prefix of the text or its first 90 characters plus "..." |
| Reply.TruncatedFromDeterminate | backend/ai_manager.py:40-50 | the length rule names exactly one reply for each cleaned text |
| Reply.ProcessResponse | backend/ai_manager.py:30-54 | a failed call gives the apology; otherwise the reply is the cleaned text cut by the length rule (kept whole up to 90 characters, else cut after the last truncate mark at index 46 to 89, else the first 90 characters plus "..."), at most 93 characters, with no line breaks |
| Prompts.CreatePromptBuilder | backend/prompt_builder.py:142-156 | the builder takes the context's entries, with `max_history` 8 when absent |
| Prompts.BuildSystemPrompt | backend/prompt_builder.py:40-52 | a non-empty character card is used as is; otherwise the default persona |
| Prompts.BuildMemoryContext | backend/prompt_builder.py:57-73 | empty exactly when there is no manager, `retrieve` raised, or it answered nothing; otherwise the header, ending in a newline |
| Prompts.MemoryContextLists | backend/prompt_builder.py:72-73 | every retrieved memory appears in the section as a "- m" line |
| Prompts.BuildEmotionPrompt | backend/prompt_builder.py:78-89 | empty exactly without a service or with an empty state; otherwise the header and the state |
| Prompts.KeepLast | backend/prompt_builder.py:101 | `history[-k:]` is a suffix: the last k turns for k > 0, everything for k = 0, all but the first -k for k < 0 |
| Prompts.LinesAppend | backend/prompt_builder.py:104-106 | rendering turns distributes over concatenation |
| Prompts.TurnRenderedInPlace | backend/prompt_builder.py:104-106 | each kept turn's line sits between the lines of the turns before and after it |
| Prompts.BuildHistoryPrompt | backend/prompt_builder.py:94-108 | empty for an empty history; otherwise the header and one "role：content" line per kept turn |
| Prompts.BuildPrompt | backend/prompt_builder.py:113-136 | persona, blank line, emotion, memory and history sections, then the user's message and the closing line; a missing history counts as empty |
| Prompts.PromptFrame | backend/prompt_builder.py:127-134 | every prompt starts with the persona and a blank line, and ends with the user's message and the closing line |
| Prompts.BarePrompt | backend/prompt_builder.py:122-134 | without emotion service, memory manager or history, nothing stands between persona and message |
| Prompts.SectionsSkipEmpty | backend/prompt_builder.py:127-131 | an empty emotion state or memory answer drops only that section |
| ChatPrompt.FilterPersona | backend/prompt_generator.py:24-31 | outside "S2"/"explain" the persona is unchanged; inside, the three hobby passages are removed and the scholar paragraph is extended by its note |
| ChatPrompt.PlainPersonaUnfiltered | backend/prompt_generator.py:24-31 | a persona without any of the four passages passes through every state unchanged |
| ChatPrompt.ScholarNoteAdded | backend/prompt_generator.py:31 | in a scholar state, a surviving scholar paragraph carries the note afterwards |
| ChatPrompt.RenderMemories | backend/prompt_generator.py:35-39 | the memory block is empty for a falsy answer or no rows; otherwise the header and the first row's documents, one per line |
| ChatPrompt.MemoryLinesAppend | backend/prompt_generator.py:38-39 | rendering documents distributes over concatenation |
| ChatPrompt.MemoryLinesLength | backend/prompt_generator.py:38-39 | the block is the documents' lengths plus one newline each |
| ChatPrompt.EmptyRowGivesBareHeader | backend/prompt_generator.py:36-39 | the legacy no-collection answer `[[]]` yields the header with no lines |
| ChatPrompt.OnlyFirstRow | backend/prompt_generator.py:38 | rows after the first never change the block |
| ChatPrompt.GenerateChatPrompt | backend/prompt_generator.py:18-58 | the template filled with the filtered persona, the state, its description, the memory block and the message |
| ChatPrompt.TemplatePlaces | backend/prompt_generator.py:41-56 | the prompt opens with the persona and ends with the user's message followed by the reply requirements |
| Accounts.CollectionNameChars | backend/database.py:95 | the name is "memory_" plus the email with each '@' and '.' made '_', character by character, and holds neither |
| Accounts.SameNameIff | backend/database.py:95 | two emails share a collection name exactly when they agree once '@' and '.' are made '_' |
| Accounts.CollectionNameCollides | backend/database.py:95 | different emails ("a.b@x", "a_b@x") can share a collection name |
| Accounts.FindUser | backend/database.py:55-57 | finds a user with that email, and none exactly when no user has it |
| Accounts.FindCollection | backend/database.py:75-77 | finds a collection of that user, and none exactly when the user has none |
| Accounts.Session.constructor | backend/database.py:41-43 | the tables start empty |
| Accounts.Session.CreateUser | backend/database.py:59-65 | appends a user with the next id; a taken email violates the unique column and changes nothing |
| Accounts.Session.GetOrCreateUser | backend/database.py:67-72 | returns the existing user for the email, or appends a new one; the result has that email |
| Accounts.GetOrCreateUserIdempotent | backend/database.py:67-72 | a second `get_or_create_user` finds the first call's user and adds nothing |
| Accounts.Session.CreateMemoryCollection | backend/database.py:79-85 | appends a collection with the next id; a taken name violates the unique column and changes nothing |
| Accounts.Session.GetOrCreateMemoryCollection | backend/database.py:87-96 | returns the user's existing collection, else creates one named after the email, failing when that name is taken |
| Accounts.CollidingEmailsConflict | backend/database.py:87-96 | of two users whose emails map to one name, only the first to ask gets a collection |

## Left out

- Locks: the threading locks of the v2 manager and the wrapper are left out. Each call is modelled as atomic.
- Clocks: every `time.time()` and `datetime.now()` reading is a parameter. Within one clean-up pass the v1 manager uses one reading for all its expiry checks, where the code reads the clock again for each document.
- Hashing: `abs(hash(content))` is a given fingerprint, and the legacy `memory_{timestamp}` id is a given string.
- Similarity search: the embedding model and the vector query are left out. The v2 query's answer is given as the candidate list; `MemoryStore.MemoryManagerV2.RetrieveRelevantMemories` requires it to hold at most `3 * limit` ids, the `n_results` of line 98 of `backend/memory_manager_v2.py`. Which stored records the query picks is not modelled. The v1 query's answer is given as a row of documents, at most `n_results` long.
- ISO timestamps: text parsing is not modelled. A stored stamp is absent, a parsed number of seconds, or unparsable (`fromisoformat` raises).
- Legacy metadata: the `user_msg` and `assistant_msg` metadata are not kept, since nothing reads them back. A missing `documents` or `metadatas` list in the clean-up's `get` answer is not modelled; every document is present.
- ChromaStore.Store: the order of a `get` listing is modelled as insertion order, with deletions closing the gaps. Chroma does not promise any order. So the claims that depend on listing order hold for that order only: which of several equally important records rule 2 evicts (`MemoryRecords.CapacityVictimsArePrefix`, `MemoryRecords.KeptAreRankedSuffix`), the "in listing order" parts of `MemoryStore.PruneStateEffect`, `MemoryStore.AddMemoryEffect` and `MemoryStore.MemoryManagerV2.MarkExpired`, and which documents count as coming after an unparsable stamp in the legacy clean-up (`LegacyStore.CleanUpSparesAfterBadStamp`). The legacy collection's document sequence is ordered the same way.
- Default arguments: `persist_dir` and `collection_name` of the v2 constructor are not modelled, since the collection is given. The other defaults are the defaults of the model's parameters.
- ChromaStore.AddOne: adding an id that already exists leaves the collection unchanged, which is Chroma's documented behaviour for duplicate ids. Its warning is not modelled.
- Floating point: importance, scores and recency are `real`. Rounding of `float` arithmetic is not modelled.
- Dynamic loading: the wrapper's imports and its argument-less instantiation of v1 (lines 51-110 of `backend/memory_manager_wrapper.py`) are not modelled. The loaded backends are given, each as the set of attribute names `hasattr` sees, and the outcome of each backend call is given. The shipped backends appear as `Resilience.V2Attributes` and `Resilience.V1ModuleAttributes`.
- Resilience.MemoryManagerWrapper.HealthCheck: `errors` is always empty in the model, because reading an attribute of a loaded backend cannot raise there.
- Logging and console output are left out throughout.
- Prompts.BuildMemoryContext: the answer of `retrieve` is given as an optional list of strings. As wired in the application, the memory manager is the wrapper, which has no `retrieve` (see `Resilience.ShippedRetrieveIsMissing`), so that answer is the raised case.
- Prompts.BuildHistoryPrompt: history entries without a `role` or `content` key (a `KeyError` in the code) are not modelled. Every turn carries both.
- The emotion state machine, the persona text and the state descriptions come from modules that are not part of this model. They are given as strings.
- Reply.ProcessResponse: the Ollama call is a given outcome, either text or failure. `summarize_conversation` and the rest of `backend/ai_manager.py` are not part of this model.
- Accounts: a unique-column violation raises `IntegrityError` at commit in the code; the model returns None and leaves the tables unchanged. Foreign keys, the `created_at` / `updated_at` columns, `init_db` beyond empty tables, and session handling (`get_db`) are not modelled.
- `backend/chat_service.py`, `backend_old/` and the tests are callers and context, not part of this model.
