# A model of para-mcp in Dafny

para-mcp serves vaults of Markdown notes. This project models its federated queries, its
full-text index, its per-note actor pool, its link graph and the memory structures of its
Postgres vault, and several smaller stateful parts, and proves what they promise.

| file | what it models |
|---|---|
| Sequences.dfy, Text.dfy | filtering, sorting, counting and lines, used by the others |
| Domain.dfy, NoteCache.dfy, LocalVault.dfy | summaries and their order, the summary cache, one vault's query window |
| Pagination.dfy, CursorChain.dfy | one federated call, and chains of calls that follow cursors |
| ChainOrder.dfy, ChainTombstones.dfy | in which order such chains deliver, and what tombstoned notes do to them |
| Federation.dfy | the service that answers the calls |
| ActorPool.dfy, ActorPoolRuns.dfy, ActorPoolCalls.dfy | the actor pool as a transition system over the steps of callers, workers and the closing call, its runs, and how each call ends |
| FullTextIndex.dfy, IndexWriter.dfy, IndexSearch.dfy, IndexRanking.dfy | the inverted index as a value, its copy-on-write upkeep in place, BM25 search, and what its score rewards |
| Backlinks.dfy, BacklinkRuns.dfy | the link graph and its inverse, and whole runs of its writes |
| LinkQueries.dfy, LocalIndex.dfy | link parsing and the backlinks query, after any sequence of a local vault's index writes |
| PostgresVault.dfy | the Postgres vault's mutations over an abstract table, and the load at start-up |
| Metrics.dfy, Scoring.dfy | NDCG and recall, chunk-to-document scores |
| Budget.dfy, BodyCache.dfy | the rolling 24-hour budget, the body cache bounded in bytes |
| Debounce.dfy, Chunks.dfy | debounced body events, overlapping chunks |
| NoteFormat.dfy, DerivedBlock.dfy | the two front-matter printers and their parsers |

`dafny verify dfyconfig.toml` checks the whole project.

Conventions. What the program takes from outside is a parameter: the clock, the outcome of a
transaction, which scopes fail, and the library functions it calls (YAML and JSON codecs,
tokenizing, lower-casing, path normalisation, entity tags, logarithm and power), with the few
facts used of them written as a predicate (`Lawful`, `PositiveAboveOne`, `Increasing`). The order in which a
map is ranged over, in which scopes answer and in which a sort places ties is never fixed: the
methods that stand for these (`Range`, `ArrivalOrder`, `SortFunc`) promise the contents only.
Scores and grades are `real`, term frequencies `nat`.

What the proofs show the code does, where that differs from what its comments or names suggest:

- A federated query with limit 100 or more can report HasMore false while notes remain, because
  the vault clamps at 100 and the extra note is never fetched; with limit 0 and notes left a
  client can follow cursors for ever; with a negative limit the slice expression panics
  (`SliceBounds`) once a scope answered.
- A page that exhausts the scopes that answered reports HasMore false and gives no cursor, so the
  notes left in a scope that failed in that call are lost to the chain. A failure in an earlier
  call loses nothing, but the pages can overtake the scope's notes and the order is then wrong.
- The vaults count tombstoned notes and the federation does not. A note deleted and created again
  at its path stays tombstoned while it is in the vault, and unless such notes come last in the
  listing, notes behind them can be lost or come twice.
- A negative request offset is clamped by the vault but carried on in the cursor.
- The cursor carries sort and direction, and nothing reads them back: a chain in order is one whose
  client repeats filter, sort and direction with every cursor.
- A scope asked for twice moves its offset twice as far on a cut page, past notes never shown.
- `UpsertDiff` keeps the old asset flag of a retained key, and records the new links only when
  some key came or went. So a backlinks query can show an older flag than the links on
  record and, without assets, leave out or add a source; with assets included the sources it
  finds are right.
- `PatchFrontMatter` does not tell the index, so the corpus differs from a freshly loaded
  one exactly when some note's title or time is not what it was at its last indexing.
- Two live paths of a vault that differ only in case share one cache entry; the links and the
  index keep them apart.
- A hard delete of a soft-deleted row clears the cache key of a live path that differs from it
  only in case.
- A body-cache `set` of a note over the limit first evicts everything else.
- The debounce number starts over when an entry is deleted, so a superseded callback still
  waiting for the lock can take the entry of a newer event, process its own old event and leave
  the newer one unprocessed.
- NDCG and recall exceed 1 for some judgement of every ranking that repeats an id; a document's
  chunk score can depend on the order of its hits when a chunk is repeated, and a better hit can
  then lower it.
- `injectDerived` loses its value when every front-matter line starts with the derived key,
  which takes content whose first line continues the opening dashes.

## Model

| member | source | states |
|---|---|---|
| `Domain.LeqIsPathOrder` | internal/core/domain/filter.go:65-91 | for every sort field, known or not, and both directions the comparator is a total preorder that ties two notes only when their paths agree |
| `Domain.SortedListingUnique` | internal/core/domain/filter.go:72-91 | notes with distinct paths have exactly one sorted order, so neither map iteration nor tie-breaking can show |
| `Domain.SortSummaries` | internal/core/domain/filter.go:76-91 | the result is a rearrangement of the notes in which titles, if sorted by title, and otherwise update times ascend, or descend when asked to, and among equal ones paths ascend in both directions; strings stand in dictionary order |
| `Domain.SortedMeans` | internal/core/domain/filter.go:65-91 | a list is sorted by the comparator if and only if its fields and paths stand so |
| `Domain.CompareStringsMeans` | internal/core/domain/filter.go:65-91 | one string is less than another if and only if it is a proper beginning of it or smaller where they first differ |
| `Domain.ApplyFilter` | internal/core/domain/filter.go:9-17 | the result is the matching notes in the order they came |
| `NoteCaches.NoteCache.All` | internal/infrastructure/storage/noteutil/noteutil.go:225-233 | every cached summary once, in an order left open |
| `LocalVaults.LocalVault.Query` | internal/infrastructure/storage/localvault/queries.go:21-56 | total is the number of matching notes; the page is the window of the one sorted listing from the offset, at least 0, of the limit, 20 for one of at most 0 and at most 100; HasMore says whether the page is non-empty and notes follow it; the page is in order by field, direction and path |
| `LocalVaults.ListingUnique` | internal/infrastructure/storage/localvault/queries.go:22-25 | two runs of one query see the same listing, which is what gives an offset a meaning between calls |
| `LocalVaults.ClampLimitValues` | internal/infrastructure/storage/localvault/queries.go:28-34 | a limit of at most 0 becomes 20, one above 100 becomes 100, any other is used as it is |
| `Pagination.MergeRestricts` | internal/application/federation.go:166-219 | whatever the arrival order of the scopes and the tie-breaking of the sort, the merged list restricted to a scope is what that scope contributed |
| `Pagination.PageRestricts` | internal/application/federation.go:195-234 | a page restricted to a scope is a prefix of the scope's contribution, all of it when the page was not cut, and empty for other scopes |
| `ChainTombstones.AlwaysDeliversRunIff` | internal/application/federation.go:202-234 | whatever else is asked for and whatever fails: for limits up to 99 a scope that answers from an offset delivers the notes its offset moves over, if and only if no tombstoned note stands before a live one among the hundred notes from there on |
| `Pagination.DeliversRun` | internal/application/federation.go:195-234 | when the tombstoned notes of its window come last, a call delivers the next notes of each answering scope and nothing of a failing one |
| `Pagination.UncutPageOnceIff` | internal/application/federation.go:166-193 | on an uncut page no note is repeated if and only if no scope with something to contribute was asked for twice |
| `Pagination.LiveRemainIff` | internal/application/federation.go:202-224 | whatever is tombstoned and wherever the offsets stand: HasMore tells whether the answering scopes have live notes left that are not on the page, if and only if the fetched notes overflow the page or no live note lies past its scope's window |
| `Pagination.HasMoreExact` | internal/application/federation.go:183-224 | for limits up to 99 HasMore tells it if the tombstoned notes past the offsets come after the live ones |
| `Pagination.HasMoreTellsAllIff` | internal/application/federation.go:202-224 | over all registered scopes, failed ones included, HasMore tells whether live notes remain if and only if enough was fetched and either an answering scope has some left or no failing one has |
| `Pagination.OffsetsTell` | internal/application/federation.go:220-234 | without live tombstones the same in offsets: HasMore holds exactly when some answering scope has notes past its next offset, always for limits up to 99 |
| `Pagination.TombstoneHidesRest` | internal/application/federation.go:202-224 | a tombstoned note ahead of two live ones: with limit 1 a lone scope delivers the first live one, ends with HasMore false, and the other is lost |
| `Pagination.RepeatedScopeSkips` | internal/application/federation.go:226-234 | a scope asked for twice, on a cut page: its first note comes twice, its offset moves by two and its second note is skipped |
| `Pagination.LimitHundredStopsEarly` | internal/infrastructure/storage/localvault/queries.go:32-34 | at limit 100 a lone scope with more than 100 notes ends with HasMore false although notes remain |
| `Pagination.FilterPrefixIff` | internal/application/federation.go:209-213 | a prefix of a filtered list is a prefix of the list if and only if nothing was filtered out of it |
| `CursorChains.DeliveredIsRun` | internal/application/federation.go:195-234 | along any chain, with any scopes failing at any call and any changes of the allowed scopes: where the tombstoned notes of every window come last, what a scope has delivered is one contiguous in-order run from its start offset, and its offset is the start plus the number delivered |
| `CursorChains.StickyScopes` | internal/application/federation.go:701-719 | the sticky scope set never grows along a chain and stays free of repeats |
| `ChainTombstones.DeliveredOnceIff` | internal/application/federation.go:195-234 | for any tombstones, failures and start offsets: a note is delivered twice along a chain if and only if some page holds a note at or past the position its cursor resumes from and a later call delivers of that scope again |
| `ChainTombstones.DeliveredOnce` | internal/application/federation.go:195-234 | no note is delivered twice along a chain whose windows have their tombstoned notes last |
| `ChainTombstones.TombstoneRepeats` | internal/application/federation.go:202-234 | a tombstoned note ahead of the least live one: two calls with limit 1 over two scopes deliver that note twice |
| `CursorChains.NothingElseDelivered` | internal/application/federation.go:701-719 | a scope that the first call did not have, or that no vault serves, delivers nothing in the whole chain |
| `CursorChains.ChainsEnd` | internal/application/federation.go:220-247 | whatever fails and whatever is tombstoned, a chain with positive limits has at most one call more than there are notes in the first call's scopes |
| `CursorChains.PageExists` | internal/application/federation.go:151-247 | every call has an answer, whatever scopes fail |
| `CursorChains.LimitZeroStallsIff` | internal/application/federation.go:221-247 | with limit 0 and nothing failing, chains of every length exist if and only if the note at some scope's offset is live |
| `ChainOrder.DeliveredSorted` | internal/application/federation.go:195-247 | along any chain, whatever fails and whatever is allowed: if no page holds a note that comes after one its call did not get to see, the concatenated pages are sorted, and everything delivered comes before everything left |
| `ChainOrder.SortedIffNoOvertaking` | internal/application/federation.go:195-247 | of a chain that delivered the union: it is in order if and only if no page held a note that comes after one its call did not get to see |
| `ChainOrder.OnlyFailuresOvertaken` | internal/application/federation.go:183-224 | with limits up to 99 only the notes of failing scopes can be overtaken so |
| `ChainOrder.FollowingCursorsDeliversUnion` | internal/application/federation.go:166-247 | when nothing fails, following the cursors from offset 0 to HasMore false gives a sorted permutation of the union of all scopes' listings |
| `ChainOrder.EndedChainDeliversUnionIff` | internal/application/federation.go:166-247 | with failures allowed at any call: an ended chain from offset 0 whose scopes stay allowed has delivered the whole union, in some order, if and only if no scope failing at the last call had notes left |
| `ChainOrder.EndedChainSortedUnionIff` | internal/application/federation.go:166-247 | such a chain with limits up to 99 gives the sorted union if and only if no scope failing at the last call had notes left and no page overtook the notes of a scope that failed in its call |
| `ChainOrder.FailureBreaksOrder` | internal/application/federation.go:202-234 | a chain in which a scope fails once, at the first call: the union is delivered and is not in order |
| `ChainTombstones.EndedChainCoversIff` | internal/application/federation.go:202-247 | for any tombstones: an ended chain from offset 0 has delivered a live note of a scope that stayed allowed if and only if the last call's window reached it or an earlier page held it |
| `ChainTombstones.EndedChainDeliversLiveIff` | internal/application/federation.go:202-247 | such a chain has delivered every live note exactly once if and only if no rewound scope delivered again and every live note was reached in that sense |
| `ChainTombstones.AsIfGoneIff` | internal/application/federation.go:202-213 | at every limit and offset a scope contributes as if its tombstoned notes were not in the vault, if and only if they come last in its listing |
| `ChainTombstones.ChainOfLiving` | internal/application/federation.go:202-247 | a chain over vaults whose tombstoned notes come last is a chain over the vaults without them |
| `ChainTombstones.FollowingCursorsDeliversLiving` | internal/application/federation.go:166-247 | over such vaults, when nothing fails, following the cursors gives all live notes, each once and in order |
| `Federation.FederationService.Query` | internal/application/federation.go:151-247 | the error of each case, else a page of the call the request resolves to, in order by field, direction and path, with cursor payload, counts and scope lists; no note, reported scope or cursor scope lies outside the allowed ones; a cursor that cannot be decoded and a fresh offset above 500 are refused |
| `Federation.FederationService.ComputeEffectiveScopes` | internal/application/federation.go:676-697 | exactly those allowed scopes that are registered and, when any are named, requested, each as often as it is allowed and in the allowed order |
| `Federation.FederationService.ResolveScopesAndOffsets` | internal/application/federation.go:701-731 | a cursor gives exactly those of its scopes that are allowed, in its order, at its offsets; a fresh request gives its offset for every effective scope or is refused above 500 |
| `Federation.ResolvesWithin` | internal/application/federation.go:701-731 | whatever a request resolves to lies within the allowed scopes |
| `Federation.FederationService.MergeAndCut` | internal/application/federation.go:195-247 | what was gathered, in order and cut at the limit, with counts and next offsets from what is left on the page and a cursor exactly when something was cut off |
| `Federation.FreshResolves` | internal/application/federation.go:722-731 | a fresh request over distinct allowed scopes resolves to distinct scopes, exactly those allowed, registered and requested, all at the request's offset |
| `Federation.PresentedFollows` | internal/application/federation.go:702-719 | presenting the cursor of an answered call continues that call's chain, whatever is allowed and registered by then |
| `Federation.FederationService.FollowCursors` | internal/application/federation.go:151-247 | a client that presents each answer's cursor until HasMore is false terminates and has the live notes of all scopes, each once and in order by field, direction and path, query by query through the service, if the tombstoned ones come last in their listings |
| `Federation.FederationService.FanOut` | internal/application/federation.go:166-214 | for some arrival order: the contributions appended in it, and in it the registered scopes as attempted, of these the failing ones as failed and the others as succeeded |
| `Federation.FederationService.WorldValid` | internal/application/federation.go:166-193 | the listings that the service's vaults have for one request are sorted, free of repeats and of one scope each, so every statement about pages and chains applies to its queries |
| `Federation.CountPerScope` | internal/application/federation.go:226-229 | the count of each scope is the number of its notes on the page, and the counts add up to the page length |
| `Federation.AdvanceOffsets` | internal/application/federation.go:231-234 | every effective scope gets its old offset plus the number of its notes on the page, no other scope gets one |
| `ActorPool.StepKeepsInv` | internal/infrastructure/actor/pool.go:58-137 | every step of a caller, a creator, the closing call or a worker keeps the invariant on actors, lock, closing, queues and calls |
| `ActorPool.SendersFindOpenChannel` | internal/infrastructure/actor/pool.go:73-87 | a call about to send holds the read lock on a channel that is not closed |
| `ActorPoolRuns.ReachableInv` | internal/infrastructure/actor/pool.go:58-137 | the invariant holds in every state any interleaving reaches |
| `ActorPoolRuns.ChannelsUsedSafely` | internal/infrastructure/actor/pool.go:82-116 | in every interleaving no operation is sent on a closed channel and no channel is closed twice |
| `ActorPoolRuns.OneClosurePerKey` | internal/infrastructure/actor/pool.go:120-137 | there is at most one channel and worker for a key, so two functions of one key never run together |
| `ActorPoolRuns.RunsInSendOrder` | internal/infrastructure/actor/pool.go:82-98 | what ran on a key is a prefix of what was sent there, each operation at most once; a call that returned the function's result did run; one refused or cancelled before the send never does |
| `ActorPoolRuns.LogsGrow` | internal/infrastructure/actor/pool.go:129-135 | accepted and finished operations are never forgotten or reordered |
| `ActorPoolRuns.ClosingCallWaitsForAll` | internal/infrastructure/actor/pool.go:101-118 | when the call that closed the pool returns, every accepted operation has finished and no later step can accept or run one |
| `ActorPoolRuns.CallsNeverDeadlock` | internal/infrastructure/actor/pool.go:58-137 | while any call has not returned, some step other than a cancellation is possible |
| `ActorPoolRuns.RunsEnd` | internal/infrastructure/actor/pool.go:58-137 | every step except a new call lowers a measure, so runs without new calls end |
| `ActorPoolRuns.AtRestAllDone` | internal/infrastructure/actor/pool.go:58-137 | at rest every call has returned and every accepted operation has run, also for callers that gave up waiting |
| `ActorPoolCalls.RunStory` | internal/infrastructure/actor/pool.go:58-137 | at any point of any run: a call of Do stands for the key it was made for, and is refused only if the pool is closed, cancelled only if its caller cancelled, and given up only if its caller gave up |
| `ActorPoolCalls.EarlyReturns` | internal/infrastructure/actor/pool.go:62-95 | a call returns ErrPoolClosed only after a call of Close was made and closed the pool, and the context's error only after its own cancellation |
| `ActorPoolCalls.EveryDoEnds` | internal/infrastructure/actor/pool.go:58-118 | at rest every call of Do that was made has returned and its function has run on its own key, unless the pool was closed or the caller cancelled before the send |
| `ActorPoolCalls.UndisturbedDoRuns` | internal/infrastructure/actor/pool.go:58-98 | at rest after a run without Close and cancellations every call of Do has returned the result of its function, which ran on its own key |
| `ActorPoolCalls.EveryCloseEnds` | internal/infrastructure/actor/pool.go:101-118 | at rest every call of Close has returned, the pool is closed and exactly one of them closed it |
| `ActorPoolCalls.CancellingReturns` | internal/infrastructure/actor/pool.go:82-95 | a caller can always cancel: before the send it is back in two steps of its own with nothing accepted, after it at once with what was accepted kept |
| `IndexContents.IndexUnique` | internal/infrastructure/index/index.go:239-323 | a set of documents has one index, so an index kept up by writes equals one built from scratch |
| `IndexContents.RemoveKeepsIndex` | internal/infrastructure/index/index.go:261-272 | dropping a document from every posting map and the empty maps gives the index of the remaining documents |
| `IndexContents.AddKeepsIndex` | internal/infrastructure/index/index.go:274-307 | entering a new document's postings gives the index of the documents with it |
| `IndexContents.LengthIsSumOfFrequencies` | internal/infrastructure/index/index.go:274-286 | a document's term frequencies add up to its length |
| `IndexContents.KeysDistinct` | internal/infrastructure/index/index.go:352-354 | two notes share a key only if they are the same, as long as no scope contains the separator |
| `IndexWriter.TermFreq` | internal/infrastructure/index/index.go:344-350 | a term has an entry if and only if it occurs, with its number of occurrences |
| `IndexWriter.RemoveDoc` | internal/infrastructure/index/index.go:261-272 | the document leaves every posting map and empty maps leave the index; an unknown document changes nothing |
| `IndexWriter.AddDoc` | internal/infrastructure/index/index.go:274-307 | every term of the document gains exactly its posting, in the old posting map or a new one; no other posting changes |
| `IndexWriter.RecomputeAvg` | internal/infrastructure/index/index.go:309-323 | both averages are the exact means of the stored lengths, zero for no documents |
| `IndexWriter.Apply` | internal/infrastructure/index/index.go:239-259 | the next snapshot is the index of the documents after the write, is made of fresh objects only, and nothing that existed before is modified |
| `IndexWriter.RunWriter` | internal/infrastructure/index/index.go:222-259 | after any sequence of writes every snapshot ever published is still the index of the last-written documents at its time |
| `IndexSearch.Search` | internal/infrastructure/index/index.go:152-220 | the results are exactly the documents that hold a query term, each with the BM25 sum over the query's terms computed from the documents (k1 = 1.2, b = 0.75, idf = ln(1 + (n - df + 0.5) / (df + 0.5)), body plus boosted title), best first, cut to the limit |
| `IndexSearch.NaiveIsBm25` | internal/infrastructure/index/index.go:160-199 | the score taken from counts, lengths and averages of the index is the published formula over the documents themselves |
| `IndexRanking.IdfFalls` | internal/infrastructure/index/index.go:170-171 | for an increasing logarithm the weight of a term strictly falls with the number of documents that hold it |
| `IndexRanking.SaturationGrows` | internal/infrastructure/index/index.go:176-197 | the share of a term strictly grows with its count in the field |
| `IndexRanking.SaturationFalls` | internal/infrastructure/index/index.go:176-197 | and strictly falls with the length of the field |
| `IndexRanking.SaturationAtMarks` | internal/infrastructure/index/index.go:176-197 | in a field of average length the share is idf * tf * 2.2 / (tf + 1.2); in an empty one the norm is 0.25 |
| `IndexRanking.RarerRanksFirst` | internal/infrastructure/index/index.go:152-220 | of two documents alike except that one holds the rarer of two query terms where the other holds the commoner, the first scores higher and stands first in every search |
| `IndexSearch.ScoreAll` | internal/infrastructure/index/index.go:160-199 | term-at-a-time accumulation over the postings gives exactly the hits, each with its naive sum |
| `IndexSearch.TermScoreBounds` | internal/infrastructure/index/index.go:176-197 | each query-term occurrence adds a positive amount below idf * 2.2 * (1 + title boost) |
| `IndexSearch.TermIdfPositive` | internal/infrastructure/index/index.go:170-174 | the document frequency of a term never exceeds the number of documents, so its idf is positive |
| `IndexSearch.HitsScorePositive` | internal/infrastructure/index/index.go:160-199 | every hit scores above 0 for a positive title boost, and no document scores below 0 |
| `Backlinks.BacklinkGraph.Upsert` | internal/infrastructure/storage/noteutil/noteutil.go:274-288 | the inverse index stays the exact inverse of the links shown, which name the keys of the recorded ones; the note's links are replaced on both sides, and each list keeps the other sources in order |
| `Backlinks.BacklinkGraph.Remove` | internal/infrastructure/storage/noteutil/noteutil.go:361-401 | the same invariant is kept, also when flags have drifted; the note's links are gone on both sides and every list keeps the other sources in order |
| `Backlinks.BacklinkGraph.UpsertDiff` | internal/infrastructure/storage/noteutil/noteutil.go:292-358 | called with the current links, in any state earlier writes leave: the inverse index stays the exact inverse of the shown links, the recorded links become the new ones, the shown ones the new keys with retained flags as they were shown; nothing changes when the key sets agree |
| `Backlinks.InverseDetermined` | internal/infrastructure/storage/noteutil/noteutil.go:259-264 | the links determine the inverse index up to the order of its lists |
| `Backlinks.DiffAgreesIff` | internal/infrastructure/storage/noteutil/noteutil.go:292-358 | the difference update gives the relation of the plain update if and only if every retained key keeps its asset flag |
| `Backlinks.DiffStaysInverseIff` | internal/infrastructure/storage/noteutil/noteutil.go:292-358 | after a difference update the two sides mirror each other if and only if the key sets agree or every retained key keeps its flag |
| `BacklinkRuns.Run` | internal/infrastructure/storage/noteutil/noteutil.go:274-401 | after any sequence of the three writes the inverse index is the exact inverse of the shown links, and of the recorded links if and only if no flag has drifted |
| `BacklinkRuns.InverseIff` | internal/infrastructure/storage/noteutil/noteutil.go:259-264 | an index that mirrors the shown links mirrors other links with the same keys if and only if no key carries two flags |
| `BacklinkRuns.RunTracksWrites` | internal/infrastructure/storage/noteutil/noteutil.go:274-401 | along any run the keys shown for each note are those it was last written with, and the index mirrors the last writes if and only if no flag has drifted from them |
| `BacklinkRuns.NeverDriftsIff` | internal/infrastructure/storage/noteutil/noteutil.go:274-401 | from a graph without drift: the index mirrors the recorded links after every write of a run if and only if each difference update has the recorded keys or keeps the flags of the retained ones |
| `BacklinkRuns.FlagDrifts` | internal/infrastructure/storage/noteutil/noteutil.go:292-358 | two difference updates after which the shown and the recorded flag of a key differ |
| `LinkQueries.ParseLinks` | internal/infrastructure/storage/noteutil/noteutil.go:145-165 | one link for every match that is the first for its key, in the order of the matches and with the flag of that one; a match's key is its trimmed target up to a hash, trimmed and in lower case, and an empty one has no link |
| `LinkQueries.LinkMatchKeys` | internal/infrastructure/storage/noteutil/noteutil.go:171-193 | of a path with directory, stem and extension: the lower-cased stem, base name, path without extension and path, empty ones left out, each at its first place |
| `LinkQueries.CandidatesMean` | internal/infrastructure/storage/noteutil/noteutil.go:171-193 | the library's base name, extension and suffix functions give these four keys for every path with such parts |
| `LinkQueries.PartsExist` | internal/infrastructure/storage/noteutil/noteutil.go:171-193 | every path that does not end in a slash has such parts |
| `LinkQueries.CandidatesAgree` | internal/infrastructure/storage/localvault/queries.go:85-93 | the first inverse entry of a source met under the keys is the first of those keys the source's own links name |
| `LinkQueries.QueryBacklinks` | internal/infrastructure/storage/localvault/queries.go:81-106 | in any state the graph's writes leave: each source at most once, and for every cached note: listed with a flag if and only if it passes the filter and that flag, allowed by the asset setting, is the one of its shown link for the first key that it links to; with assets included the sources are exactly those whose recorded links name a key |
| `LinkQueries.QueriesAgreeIff` | internal/infrastructure/storage/localvault/queries.go:81-106 | all queries answer from the shown links as they would from the recorded ones if and only if no flag has drifted |
| `LocalIndexes.LocalIndex.UpsertWithLinks` | internal/infrastructure/storage/localvault/scan.go:93-97 | cache and graph after indexing a note; every linked note is still cached as itself if and only if no other one has the note's cache key |
| `LocalIndexes.LocalIndex.RemoveNote` | internal/infrastructure/storage/localvault/scan.go:99-104 | cache and graph after removing a note; every linked note is still cached as itself if and only if no other one has the note's cache key |
| `LocalIndexes.LocalIndex.Rename` | internal/infrastructure/storage/localvault/mutations.go:181-189 | cache and graph after a move; every linked note is still cached as itself if and only if no third one has a cache key of the two paths |
| `LocalIndexes.LocalIndex.RunThenQuery` | internal/infrastructure/storage/localvault/queries.go:81-106 | after any sequence of index writes over paths with cache keys of their own, the backlinks query gives what a naive scan of the shown links gives, and with assets exactly the cached matching notes whose recorded links name the note |
| `PostgresVaults.PostgresVault.Create` | internal/infrastructure/storage/postgresv/mutations.go:11-77 | every error case, and otherwise a live row, and as result and cached summary the vault's scope with the normalised path, the front matter written, the path's category and the given time; afterwards cache, graph and index corpus match the table if and only if no other live path has the new path's cache key |
| `PostgresVaults.PostgresVault.UpdateBody` | internal/infrastructure/storage/postgresv/mutations.go:79-136 | every error case, and otherwise body, time and entity tag of the row are new; of the cached summary the update time becomes the given time and nothing else changes; cache, graph and corpus match the table afterwards |
| `PostgresVaults.PostgresVault.PatchFrontMatter` | internal/infrastructure/storage/postgresv/mutations.go:138-197 | every error case, and otherwise result and cached summary show the patched front matter and the given time; cache and graph match the table afterwards, and the index, which is not told, stays current if and only if title and time came out the same |
| `PostgresVaults.PostgresVault.Replace` | internal/infrastructure/storage/postgresv/mutations.go:199-261 | every error case, and otherwise result and cached summary show the patched front matter and the given time beside the new body; cache, graph and corpus match the table afterwards |
| `PostgresVaults.PostgresVault.Move` | internal/infrastructure/storage/postgresv/mutations.go:263-323 | every error case, and otherwise the row stands under the new path and of its summary only reference and category change; afterwards the structures match the table if and only if no other live path has the new path's cache key |
| `PostgresVaults.PostgresVault.Delete` | internal/infrastructure/storage/postgresv/mutations.go:325-383 | result, table and error cases, soft and hard; afterwards the structures match the table if and only if no other live path has the deleted path's cache key |
| `PostgresVaults.PostgresVault.LoadAll` | internal/infrastructure/storage/postgresv/scan.go:43-74 | from empty structures and in any row order: graph and corpus match the live rows, titles and times included, every live row's key is cached with a summary that has, field by field, the values of a live row, and the cache matches exactly if and only if no two live paths share a key |
| `PostgresVaults.PostgresVault.Run` | internal/infrastructure/storage/postgresv/mutations.go:11-383 | after any sequence of mutations over any paths, failed ones included, graph and corpus match the resulting table and every cached summary has, field by field, the values of its live row; every path that shares its key with no other stays cached, so without such pairs the whole cache matches |
| `PostgresVaults.RunThenReload` | internal/infrastructure/storage/postgresv/scan.go:43-74 | a vault kept up through any run has the links, inverse lists as bags and indexed bodies that a restart on its table loads; the whole corpus agrees if and only if every note's title and time are still those it was last indexed with; the caches agree when no two paths differ only in case |
| `PostgresVaults.SyncDetermines` | internal/infrastructure/storage/postgresv/scan.go:43-74 | two sets of structures sound for one table have the same links, inverse lists as bags and bodies, and the same corpus if and only if the older one's titles and times are current |
| `PostgresVaults.EffectKeepsSound` | internal/infrastructure/storage/postgresv/mutations.go:11-383 | every mutation over any paths keeps graph and corpus in step with the table and every cached summary current |
| `PostgresVaults.EffectInStepIff` | internal/infrastructure/storage/postgresv/mutations.go:11-383 | a mutation keeps all structures in step if and only if no other live path has the cache key it writes or deletes |
| `PostgresVaults.RunKeepsCached` | internal/infrastructure/storage/postgresv/mutations.go:11-383 | along any run a path whose key no other path has keeps its current summary cached, whatever the other paths do |
| `PostgresVaults.CorpusEqualIff` | internal/infrastructure/storage/postgresv/scan.go:43-74 | a corpus of the rows as last indexed equals that of the rows as they stand if and only if titles and times are current; keys and bodies always agree |
| `PostgresVaults.PatchCurrentIff` | internal/infrastructure/storage/postgresv/mutations.go:138-197 | a patch of a current index leaves it current if and only if title and time came out the same |
| `PostgresVaults.CacheSetIff` | internal/infrastructure/storage/postgresv/mutations.go:70-75 | writing a summary under its key keeps the cache exact if and only if no other live path has that key |
| `PostgresVaults.CacheDeleteIff` | internal/infrastructure/storage/postgresv/mutations.go:378-382 | deleting a key keeps the cache exact if and only if no other live path has that key |
| `PostgresVaults.HardDeleteClearsOther` | internal/infrastructure/storage/postgresv/mutations.go:325-383 | a hard delete of a soft-deleted row takes the cached summary of a live path that differs from it only in case |
| `Metrics.SortDescending` | eval/metrics.go:86-91 | in-place insertion sort: the same grades, in descending order |
| `Metrics.TopKRelevances` | eval/metrics.go:81-96 | the first k grades of the descending list of all judged grades, whatever order the map yields them in |
| `Metrics.PrefixDominance` | eval/metrics.go:18-33 | the gain of any n distinct documents is at most the gain of the n best grades |
| `Metrics.SummationByParts` | eval/metrics.go:18-33 | if every prefix gain of one list is at most the other's, the discounted sums compare the same way, and are equal only if all gains are |
| `Metrics.DcgAtMostIdeal` | eval/metrics.go:13-40 | the DCG of any ranking of distinct ids is at most the ideal DCG, with equality if and only if its grades are the best ones, best first |
| `Metrics.NdcgBounded` | eval/metrics.go:13-40 | the score lies between 0 and 1, and is 1 if and only if something is relevant and the grades found are the best ones, best first |
| `Metrics.NDCGAt` | eval/metrics.go:13-40 | the loops compute the quotient of the sums of (2^grade - 1) / log2(place + 1) over the first k ranked ids and over the k best judged grades, 0 when the latter is 0 or the cut-off is at most 0; between 0 and 1 for distinct ids |
| `Metrics.BoundedIffDistinct` | eval/metrics.go:18-27 | the score stays within 1 for all cut-offs and judgements if and only if the ranking repeats no id |
| `Metrics.RepeatExceedsOne` | eval/metrics.go:18-27 | at any repeated position, judging the ids so far relevant gives a score above 1 |
| `Metrics.IdealUnique` | eval/metrics.go:81-96 | the ideal list is determined by the judgements |
| `Metrics.RecallAt` | eval/metrics.go:44-67 | the number of places among the first k with a document graded above 0, over the number of such documents; between 0 and 1 for distinct ids, and 1 if and only if every relevant document is there |
| `Metrics.RecallBoundedIffDistinct` | eval/metrics.go:44-67 | the hits never outnumber the relevant documents, for all cut-offs and judgements, if and only if the ranking repeats no id |
| `Scoring.AggregateChunkHits` | internal/infra/semantic/scoring/scoring.go:35-84 | one result per document, best first, each its first hit of the highest score, with that score plus a tenth of the scores of at least 0.6 in other chunks, capped at 1 |
| `Scoring.ScoreFormula` | internal/infra/semantic/scoring/scoring.go:29-34 | for distinct chunks the score is the maximum plus a tenth of the other hits of at least 0.6, capped at 1 |
| `Scoring.OrderIrrelevantIff` | internal/infra/semantic/scoring/scoring.go:43-66 | a document's score ignores the order of its hits if and only if the chunks of the hits tied for the maximum have equal qualifying scores in all, or the other chunks lift every tied hit to the cap of 1 |
| `Scoring.DistinctChunksOrderIrrelevant` | internal/infra/semantic/scoring/scoring.go:43-66 | with distinct chunks the order of the hits never matters, also when chunks tie |
| `Scoring.RepeatedChunkSeesOrder` | internal/infra/semantic/scoring/scoring.go:54-66 | with a repeated chunk it can |
| `Scoring.AddHitNeverLowers` | internal/infra/semantic/scoring/scoring.go:69-74 | a further hit in a chunk of its own never lowers the document's score, whatever the other hits repeat |
| `Scoring.AddHitLowersIff` | internal/infra/semantic/scoring/scoring.go:54-74 | for any hits: a further hit lowers the score if and only if it becomes the best one, stays under the cap, and its chunk outweighs the old best one's by more than ten times the gain |
| `Scoring.BetterHitCanLower` | internal/infra/semantic/scoring/scoring.go:54-74 | a better hit in a repeated chunk can lower the score |
| `Scoring.AddHitLowersOnly` | internal/infra/semantic/scoring/scoring.go:35-84 | a further hit lowers no score but its own document's, and that one exactly under the condition above |
| `Scoring.AggregatesAgree` | internal/infra/semantic/scoring/scoring.go:35-84 | the same hits in another order give a document the same score whenever its tied chunks weigh the same or all reach the cap |
| `Scoring.ArrivalIrrelevantIff` | internal/infra/semantic/scoring/scoring.go:35-84 | a document's score is the same for every arrival order of all hits if and only if its tied chunks weigh the same or all reach the cap |
| `Budgets.Budget.Record` | internal/infra/semantic/budget/budget.go:84-97 | the window is the whole history pruned to 24 hours; a breach is reported if and only if the true use of the last 24 hours exceeds a positive limit, the first such limit in order (vendor tokens, vendor calls, local jobs, CPU seconds), and the breaker follows |
| `Budgets.Budget.RemainingHeadroom` | internal/infra/semantic/budget/budget.go:110-130 | what the true 24-hour use leaves of each limit, never negative; the breaker is left alone |
| `Budgets.Budget.IsTripped` | internal/infra/semantic/budget/budget.go:99-103 | the breaker is open if and only if some limit was exceeded at the last Record |
| `Budgets.Budget.WindowTotals` | internal/infra/semantic/budget/budget.go:150-165 | one pass over the window sums every metric |
| `Budgets.WindowSum` | internal/infra/semantic/budget/budget.go:84-97 | the sum over the pruned window is the true 24-hour use |
| `Budgets.UsedIsDayUse` | internal/infra/semantic/budget/budget.go:84-97 | the true use of a metric is the sum over the recorded amounts of the last 24 hours |
| `Budgets.EvictedIsFilterIff` | internal/infra/semantic/budget/budget.go:139-148 | cutting at the first fresh entry removes exactly the stale ones if and only if no stale entry sits behind a fresh one |
| `Budgets.WholeUntilReset` | internal/infra/semantic/budget/budget.go:118-121 | the window loses no entry up to and including ResetsAt, and does lose one right after |
| `BodyCaches.BodyCache.Get` | internal/infra/remotevault/cache.go:80-93 | a hit is the note stored last for the path, not invalidated since and still in its lifetime; an expired entry is dropped |
| `BodyCaches.BodyCache.Set` | internal/infra/remotevault/cache.go:95-117 | map and list stay in bijection and within 67108864 bytes; exactly the shortest oldest-first prefix that makes room is evicted; a note over the limit empties the cache and is not kept |
| `BodyCaches.BodyCache.EvictFor` | internal/infra/remotevault/cache.go:103-108 | the list loses the shortest oldest-first prefix that makes room |
| `BodyCaches.EvictedIff` | internal/infra/remotevault/cache.go:103-108 | an element is evicted if and only if it, everything newer and the new note do not fit together |
| `BodyCaches.BodyCache.Invalidate` | internal/infra/remotevault/cache.go:119-125 | the path is gone and everything else is kept, in order |
| `BodyCaches.BodyCache.RemoveLocked` | internal/infra/remotevault/cache.go:135-139 | map, list and byte count lose the element together |
| `Debouncing.RunKeepsInv` | internal/infra/semantic/pipeline.go:141-162 | in every interleaving each event is processed at most once, and a present entry belongs to its note's newest event, whose callback is still to come |
| `Debouncing.CleanRunsProcessNewest` | internal/infra/semantic/pipeline.go:141-162 | if no other callback of a note waits for the lock when its entry is deleted, only newest events are processed |
| `Debouncing.CleanRestIsUpToDate` | internal/infra/semantic/pipeline.go:141-162 | such a run at rest has processed the newest event of every note and keeps no entry |
| `Debouncing.WaitingCallbackLosesNewest` | internal/infra/semantic/pipeline.go:145-158 | from any state where a callback waits and its note has no entry, a continuation processes that old event and never the newest one |
| `Debouncing.SafeDeletionIff` | internal/infra/semantic/pipeline.go:151-158 | after any clean run, a deletion happens with no other callback of the note waiting if and only if every clean continuation processes newest events only |
| `Debouncing.WaitingCallbackMisleads` | internal/infra/semantic/pipeline.go:145-158 | from any state where a callback waits and its note has no entry, some clean continuation processes an event that is not the newest |
| `Debouncing.ThirdEventLost` | internal/infra/semantic/pipeline.go:141-162 | three events of one note from the start: the second is processed, then the first, and the third is lost |
| `Debouncing.Pipeline.SubmitBody` | internal/infra/semantic/pipeline.go:141-150 | one critical section is the model's submit step |
| `Debouncing.Pipeline.RunCallback` | internal/infra/semantic/pipeline.go:151-160 | one callback is the model's callback step |
| `Chunks.SplitChunks` | internal/infra/semantic/pipeline.go:285-303 | terminates for every size and overlap and yields the recursive split, a step being the size less the overlap, or the size if that leaves nothing; the whole text for a size of at most 0 |
| `Chunks.ChunkAt` | internal/infra/semantic/pipeline.go:295-301 | chunk i starts i steps in and has the full size unless the text ends first |
| `Chunks.ChunkCount` | internal/infra/semantic/pipeline.go:295-301 | for every step, gaps included: a later chunk i exists if and only if the text goes on past the end of chunk i - 1 and past the start of chunk i |
| `Chunks.RejoinedIff` | internal/infra/semantic/pipeline.go:285-303 | dropping the overlap of every later chunk gives back the text if and only if the overlap is not negative or one chunk is all |
| `NoteFormat.ParseOfFormat` | internal/infrastructure/storage/noteutil/noteutil.go:22-60 | reading what was written gives the front matter and the body without its leading line breaks |
| `NoteFormat.RoundTripIff` | internal/infrastructure/storage/noteutil/noteutil.go:22-60 | the round trip is exact if and only if the body does not open with CR or LF |
| `NoteFormat.RereadIff` | internal/infrastructure/storage/noteutil/noteutil.go:22-60 | writing back what was read reads the same if and only if there was front matter or the text does not open with a line break |
| `DerivedBlock.InjectDerived` | internal/infra/semantic/derived/frontmatter.go:157-184 | the loop computes the opening dashes, the front-matter lines without the derived ones in order, the new line, and what stood from the closing fence on; or the error on front matter that is never closed |
| `DerivedBlock.ParseDerivedBlock` | internal/infra/semantic/derived/frontmatter.go:141-154 | the first line with the prefix decides the result |
| `DerivedBlock.InjectedCut` | internal/infra/semantic/derived/frontmatter.go:157-184 | an injection keeps everything behind the closing fence, and all of content that had no front matter |
| `DerivedBlock.RewrittenLines` | internal/infra/semantic/derived/frontmatter.go:173-183 | the rewritten front matter has the kept lines in order, then the new line |
| `DerivedBlock.InjectTwice` | internal/infra/semantic/derived/frontmatter.go:157-184 | injecting twice is injecting the second value alone, errors included |
| `DerivedBlock.ReadBack` | internal/infra/semantic/derived/frontmatter.go:141-184 | when a front-matter line is kept the metadata reads back as injected; when none is, what is read does not depend on it |
| `DerivedBlock.RoundTripIff` | internal/infra/semantic/derived/frontmatter.go:141-184 | two different values both read back if and only if some line of the front matter is kept |
| `DerivedBlock.NewlineSurvives` | internal/infra/semantic/derived/frontmatter.go:164-184 | a line is always kept when the content opens with three dashes and a newline |
| `DerivedBlock.OnlyDerivedLost` | internal/infra/semantic/derived/frontmatter.go:157-184 | a derived line behind the opening dashes, alone in its front matter: the injection succeeds, and what is read afterwards is what stands behind the closing fence |

## Left out

- Transport, tool definitions, authentication, configuration and command line: plumbing around what is modelled.
- SQL, object storage, the file system and file watching: the Postgres table is an abstract map, a failed transaction a flag.
- Cursor encoding, signing and storage: a cursor is its payload or undecodable.
- Integer widths: counters, offsets, amounts and sizes are unbounded.
- Floating-point rounding: scores, grades and CPU seconds are `real`.
- Strings: sequences of `char` compared by `<`, standing for Go's byte strings; invalid UTF-8 in `splitChunks` is not modelled.
- MatchesFilter and HasTag: the filter is an arbitrary predicate on summaries, so every statement holds for these two as well.
- RemoteVault as a query target: its remote side caps offsets, which the fixed-listing vault of the cursor chains does not.
- Writes to a vault between two calls of a cursor chain: the listings of a chain are fixed, and so are its filter, sort and direction.
- Federation.FederationService.Query: a scope either answers or fails as a whole; the wording of partial failures is not modelled.
- Tokenizing, stemming and stop words: an arbitrary function from text to terms.
- The index's write channel and atomic pointer: `RunWriter` receives its writes as a list, and a reader holds one published snapshot.
- Backlinks.BacklinkGraph.Upsert: lists are values, so the sharing of slice storage between old and new lists is not modelled.
- ActorPool.StepKeepsInv: functions passed to Do end and do not call Do themselves, and the fairness of the scheduler is not modelled; a second Close that finds the pool closed returns at once, before the workers are done, as in the code.
- PostgresVaults.PostgresVault.Run: mutations run one after another; two at once on different notes are not modelled, and neither is the rounding of times by the database.
- PostgresVaults.PostgresVault.PatchFrontMatter: the patch is an arbitrary function of the front matter, and times in the row are the clock's.
- LocalIndexes.LocalIndex.RunThenQuery: a case-insensitive vault that addresses one note in two spellings is left to the exact conditions of the single writes.
- Federation.FederationService.FollowCursors: the client's calls use one limit from 1 to 99 and nothing fails in them; `EndedChainDeliversUnionIff` is about chains with failures.
- Budgets.Budget.Record: the clock must not step back, as the code's own comment requires; `EvictedIsFilterIff` says exactly when eviction is right without that.
- Budgets.Budget.RemainingHeadroom: `Headroom` in the code; renamed because the result type has that name.
- BodyCaches.BodyCache.Set: the linked list is a sequence of element objects; constant-time removal is not modelled.
- PostgresVaults.PostgresVault.Create: front-matter keys beyond the columns enter the entity tag and are otherwise not modelled.
- Debouncing.RunKeepsInv: delete and front-matter events bypass the debounce table and are not steps of the model; what processing does after the table is released is left out.
- Embedding, summarising, retries, semaphores and the vector store: network and foreign code.
- NoteFormat.ParseOfFormat: the YAML codec is assumed to end its output with a newline, to open no inner line with three dashes and to decode what it encoded.
- DerivedBlock.InjectDerived: files, locks and the note index of the store around it; a JSON encoding error cannot occur for a total codec.
- MRR, the summary cache, RBAC, the idempotency map, the event bus and batch helpers: they would only add easy members.
- The `.trash` directory of soft deletes in file vaults.
