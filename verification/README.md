# SecureCloud: audit ingestion, audit queries and authentication codecs in Dafny

This project models the hand-written logic of the SecureCloud audit and auth services and proves what
that logic promises. `dafny verify dfyconfig.toml` checks all of it.

**Idempotent ingestion.** The sharded deduplication cache keeps, per shard, a map of reservations in
flight, a list of committed ids in order of use and an index into that list. `DedupSpec` says what one
shard does to its values, `DedupCache` is the mutable shard (list, nodes, index map) proved against it,
`ShardedCache` the whole cache, and `DedupReference` a plain map with use ticks that every run of a
shard refines. `IngestionProtocol` makes `ingest_single` and `ingest_batch` a step system over one
shared cache: every locked section, repository call, promise fulfilment and wait is one step, so a run
is any interleaving of any number of calls. `IngestionSafety` and `IngestionAccounting` prove what
holds in every run, `IngestionAnswers` what each event is told, and `IngestionMemory` that the cache inside
the protocol is a run of the reference cache and so remembers what was acknowledged; `IngestionWitness`
walks a call from its beginning to its return.

**Staged pipeline.** `PipelineModel` is the same kind of step system for submitters, validation workers,
the aggregator, insert workers and the thread running `shutdown`; `PipelineSafety` proves the drain
order, conservation of envelopes and the aggregator's ledger, `PipelineVerdicts` that verdicts and the
repository's answers decide what is stored and how an envelope is completed, `PipelineQueues` bounds and
order of the queues, and `PipelineWitness` walks a run in which an envelope is accepted and shutdown returns.

**Keyset-paginated queries.** `QueryFilter` validates filters and lays out the filter hash, `FilterRules`
says which filters pass and which error the others get, `PageCursor`
is the cursor token, `SqlTemplate` and `SqlBuilder` are the parameterised SQL text with its bindings,
`SqlGuard` the append-only guard. The text is then read the way a database reads it: `SqlSyntax` and
`SqlLexing` turn characters into lexemes and lexemes into a query, `SqlReading` shows which query every
built text is, `SqlParameters` that no parameter overwrites another, and `SqlMeaning` says what a query
returns (conditions, tuple comparison, ORDER BY column by column, LIMIT 1 BY, LIMIT). `QueryMeaning`
proves that this is the plain "filter, sort, first row per id, one more than a page". `PagedQuery` is the
service's request and page, and `PagedChain` follows the tokens. `PagedText` puts the answer through the
TabSeparated text it arrives as and shows the same pages come out; `RowColumns` ties the positions of that
text to the selected columns. `Orders` holds sorting.

**Codecs.** `Bits`, `Base64`, `Base64Codecs` and `Base32` (RFC 4648), `Wire` (big-endian integers and
length-prefixed strings), `AuditEvents` (the fingerprint stream), `TabSeparated` and `EventRows`
(ClickHouse TabSeparated rows and UUIDv7 text), `PasswordHash` (the Argon2id verifier string),
`Redaction` (log redaction and token detection) with `RedactionReference` (plain replacement), and
`CodecTables` (the alphabets and tables letter by letter), with `Splitting` and `Substrings` beneath them.

**Refresh tokens.** `RefreshTokens` is the token table with one atomic step per transaction.

Time, randomness, SHA-256, the Argon2 derivation, the calendar conversion, enumeration names, the
database's order on UUIDs and the answers of the repository are parameters of the model. A C++ string is
a sequence of bytes (`Wire.text`) where its bytes matter and a Dafny string where only ASCII syntax does.
Shifts and masks are written as `*`, `/` and `%` by powers of two, with every 16-, 32- and 64-bit
truncation explicit.

## Model

| member | source | states |
|---|---|---|
| `DedupCache.CacheShard.constructor` | src/audit/ingestion/deduplication_cache.cpp:10-23 | a new shard is empty and its list and index agree |
| `DedupCache.CacheShard.TryAcquire` | src/audit/ingestion/deduplication_cache.cpp:29-89 | on list, nodes and index map in place: the decision and the new shard are those of the value-level shard, and list and index stay in bijection |
| `DedupCache.CacheShard.EvictOverflow` | src/audit/ingestion/deduplication_cache.cpp:91-149 | popping the tail while over capacity leaves exactly the first `capacity` entries and their index |
| `DedupCache.CacheShard.MarkCommitted` | src/audit/ingestion/deduplication_cache.cpp:91-149 | the reservation becomes the most recent committed entry, a stale entry of that id goes, the list is cut to capacity, the reserved promise comes back |
| `DedupCache.CacheShard.RollbackInFlight` | src/audit/ingestion/deduplication_cache.cpp:151-175 | only the reservation goes, its promise comes back |
| `DedupCache.CacheShard.EvictExpired` | src/audit/ingestion/deduplication_cache.cpp:177-195 | exactly the expired entries go, in place, the rest keep their order |
| `DedupReference.StepRefines` | src/audit/ingestion/deduplication_cache.cpp:29-195 | each operation gives the same reply as a reference cache with use ticks, and keeps the refinement (list sorted by last use, in-flight and committed ids disjoint, at most capacity entries) |
| `DedupReference.ShardRefinesReference` | src/audit/ingestion/deduplication_cache.cpp:29-195 | every run of operations from the empty shard refines the reference run |
| `DedupReference.RepliesAgree` | src/audit/ingestion/deduplication_cache.cpp:29-195 | in every run every reply is the one the reference gives |
| `DedupReference.EvictedAfterCapacityNewerUses` | src/audit/ingestion/deduplication_cache.cpp:91-135 | in every run a commit evicts another id only when `capacity` other ids were used more recently |
| `DedupReference.AnsweredCommittedWasCommitted` | src/audit/ingestion/deduplication_cache.cpp:29-59 | in every run an already-committed answer goes back to an earlier reservation and commit of the same id and payload and is given strictly before its expiry |
| `ShardedCache.CapacityBound` | src/audit/ingestion/deduplication_cache.cpp:10-23 | shards times shard capacity is below capacity plus shards |
| `ShardedCache.ShardCapacityIsShare` | src/audit/ingestion/deduplication_cache.cpp:17-17 | the share is what the 32-bit sum leaves, divided among the shards and rounded down, and at least one |
| `ShardedCache.ShareReachesCapacity` | src/audit/ingestion/deduplication_cache.cpp:17-17 | the shards together reach the capacity exactly when the 32-bit sum does not wrap, and then no smaller share does |
| `ShardedCache.BoundedDeduplicationCache.HomeIsMasked` | src/audit/ingestion/deduplication_cache.cpp:25-27 | the shard of an id is the number the low bits of its hash spell |
| `ShardedCache.StepKeepsShard` | src/audit/ingestion/deduplication_cache.cpp:25-195 | every operation on an id keeps every shard sound and every id in the shard its hash names |
| `ShardedCache.BoundedDeduplicationCache.constructor` | src/audit/ingestion/deduplication_cache.cpp:10-23 | the shards are empty, their number is the least power of two at or above the request, and each has its share of the capacity: shards times share reaches the capacity unless the 32-bit sum wraps |
| `ShardedCache.BoundedDeduplicationCache.TryAcquire` | src/audit/ingestion/deduplication_cache.cpp:25-89 | changes the id's own shard only, as the value-level shard does; a new reservation gets a promise that no reservation holds and nothing has fulfilled, and every valid state keeps promises distinct and those in flight unfulfilled |
| `ShardedCache.BoundedDeduplicationCache.Fulfil` | src/audit/ingestion/deduplication_cache.cpp:137-175 | a promise keeps its first value; a second one is swallowed |
| `ShardedCache.BoundedDeduplicationCache.MarkCommitted` | src/audit/ingestion/deduplication_cache.cpp:91-149 | commits in the id's own shard and fulfils the waiting promise, which was still empty, with a coalesced acknowledgement |
| `ShardedCache.BoundedDeduplicationCache.RollbackInFlight` | src/audit/ingestion/deduplication_cache.cpp:151-175 | releases in the id's own shard and fulfils the waiting promise, which was still empty, with the failure |
| `ShardedCache.BoundedDeduplicationCache.EvictExpired` | src/audit/ingestion/deduplication_cache.cpp:177-195 | every shard is swept and the number returned is the loss of committed entries |
| `ShardedCache.BoundedDeduplicationCache.CommittedCount` | src/audit/ingestion/deduplication_cache.cpp:197-222 | the total over the shards, always below capacity plus shards |
| `ShardedCache.BoundedDeduplicationCache.WithinCapacity` | src/audit/ingestion/deduplication_cache.cpp:10-23 | in every valid state the committed entries stay below capacity plus shards, however ids hash |
| `IngestionSafety.StepKeepsInv` | src/audit/service/audit_ingestion_service.cpp:13-303 | every step of every call keeps the protocol invariant tying reservations, promises, acknowledgements, results and durable writes together |
| `IngestionSafety.AcknowledgedIsDurable` | src/audit/service/audit_ingestion_service.cpp:27-300 | in every interleaving a success result, new, already committed or coalesced, follows a write of that id and payload, with the time of receipt it reports, for which the repository returned Committed |
| `IngestionAnswers.ReturnedCallAnswersEveryEvent` | src/audit/service/audit_ingestion_service.cpp:13-303 | when a call returns, events and results correspond one to one, and each result names the event, success, status, time of receipt and code that its fate calls for: refused by validation or with the whole batch, a cache hit, a conflict, the outcome the repository returned for the write, or the outcome of the owner it waited for, or the timeout |
| `IngestionAnswers.ReportTells` | src/audit/service/audit_ingestion_service.cpp:230-262 | the written events are reported one by one, in order: persisted, failed or ambiguous as the repository returned |
| `IngestionAnswers.WritesSomething` | src/audit/service/audit_ingestion_service.cpp:229-231 | the repository is never called with an empty batch |
| `IngestionWitness.CallReturns` | src/audit/service/audit_ingestion_service.cpp:69-102 | for every event, either kind of call and every outcome of the repository there is a run in which the event is written and the call returns with that outcome |
| `IngestionWitness.WaiterReturns` | src/audit/service/audit_ingestion_service.cpp:46-66 | for every event there is a run in which a second call with it waits, times out and reports the deadline, and one in which it reads the first call's committed write |
| `IngestionMemory.ShardsRefineReference` | src/audit/ingestion/deduplication_cache.cpp:25-195 | in every interleaving each shard is the reference cache after the operations the calls performed on it, with their ids, payloads and times |
| `IngestionMemory.AcknowledgedIsRemembered` | src/audit/ingestion/acknowledgement_manager.cpp:5-13 | acknowledging a committed write commits its event, with its time of receipt, to the shard its hash names |
| `IngestionMemory.RememberedEventIsNotWrittenAgain` | src/audit/service/audit_ingestion_service.cpp:27-45 | in every interleaving, until the entry expires and while fewer than capacity other ids of the shard come by, the same id and payload is answered as a committed duplicate with the first time of receipt and is not written again |
| `IngestionSafety.OneOwner` | src/audit/ingestion/deduplication_cache.cpp:61-89 | at any time an id in flight is reserved by one position of one call |
| `IngestionSafety.WrittenIdsAreDistinct` | src/audit/service/audit_ingestion_service.cpp:186-254 | no write holds an id twice |
| `IngestionSafety.FulfilledOnce` | src/audit/ingestion/acknowledgement_manager.hpp:17-60 | every set_value across commit, rollback and guard finds its promise empty, and the value stays |
| `IngestionSafety.PromiseCarriesOutcome` | src/audit/ingestion/acknowledgement_manager.cpp:5-33 | every fulfilled promise carries the status, time of receipt, code and message that its owner's outcome calls for, the guard's default after a throw |
| `IngestionSafety.WaiterReadsOwner` | src/audit/service/audit_ingestion_service.cpp:255-300 | a coalesced waiter reads the outcome of the owner's write, for the same id and payload, and reports it |
| `IngestionSafety.InBatchDuplicatesAreResolved` | src/audit/service/audit_ingestion_service.cpp:255-300 | a duplicate inside one batch finds its promise fulfilled before its wait begins |
| `IngestionSafety.InFlightExactly` | src/audit/service/audit_ingestion_service.cpp:69-133 | in every run an id is in flight exactly when some call still owns it; a call that returned or is waiting and an ingest_single that threw own nothing |
| `IngestionSafety.UnwoundHoldsUnlessGuarded` | src/audit/ingestion/acknowledgement_manager.hpp:17-60 | after an exception a reservation is left behind, and its promise unfulfilled, exactly when the call has no guard |
| `IngestionSafety.AbandonedForever` | src/audit/service/audit_ingestion_service.cpp:186-254 | what an ingest_batch that threw had reserved stays in flight in every later state and its promise is never fulfilled |
| `IngestionSafety.AbandonedIdIsBlocked` | src/audit/service/audit_ingestion_service.cpp:186-300 | a later waiter on such a promise never finds it ready, and a later call presenting the id never reserves it |
| `IngestionSafety.ThrowingBatchAbandons` | src/audit/service/audit_ingestion_service.cpp:186-254 | such runs exist: the repository call throws, or the fingerprint of a later event throws after earlier ones are reserved |
| `IngestionAccounting.ReturnedCallAccountsForEveryEvent` | src/audit/service/audit_ingestion_service.cpp:135-303 | when a call returns, each id is among the results as often as among the events, accepted plus rejected is the number of events, accepted counts the successes, and the rejected ids are those of the failing results |
| `PipelineSafety.StepKeepsOrder` | src/audit/ingestion/audit_ingestion_pipeline.cpp:40-59 | every step of every thread keeps the drain order: no stage is shut while a stage before it can still push |
| `PipelineSafety.StepConserves` | src/audit/ingestion/validation_worker_pool.cpp:63-156 | every step moves each envelope between queue, worker, batch and completion without losing or copying it |
| `PipelineSafety.ShutdownCompletesEveryAcceptedEnvelope` | src/audit/ingestion/audit_ingestion_pipeline.cpp:28-66 | in every interleaving, once the shutdown call that stops the pipeline has returned, an envelope was completed exactly once if its submit returned true and never otherwise, and no queue, batch or worker holds anything |
| `PipelineVerdicts.OnlyValidPasses` | src/audit/ingestion/validation_worker_pool.cpp:64-138 | in one step, an envelope gets behind validation only by a verdict of valid |
| `PipelineVerdicts.JudgedOnce` | src/audit/ingestion/validation_worker_pool.cpp:64-138 | in every interleaving an envelope gets at most one verdict |
| `PipelineVerdicts.VerdictDecides` | src/audit/ingestion/validation_worker_pool.cpp:64-138 | at every moment an envelope behind validation or stored was found valid; one found invalid is completed as a failure, one found a duplicate as ignored, and neither is ever stored or handed to the repository |
| `PipelineVerdicts.CompletionTellsTheTruth` | src/audit/ingestion/insert_worker_pool.cpp:61-114 | a completed envelope was completed with success exactly when the repository accepted its batch, as ignored exactly when it was found a duplicate, and as a failure exactly when validation or the repository refused it |
| `PipelineVerdicts.CompletedOneWay` | src/audit/ingestion/acknowledgement_manager.cpp:35-68 | no envelope is completed in two ways |
| `PipelineVerdicts.StoppedPipelineToldEveryone` | src/audit/ingestion/audit_ingestion_pipeline.cpp:40-59 | once shutdown has returned, every accepted envelope had its verdict and its completion, a valid one was handed to the repository, and it is stored exactly when its completion says so |
| `PipelineQueues.QueuesAreBounded` | src/audit/ingestion/bounded_ingestion_queue.cpp:13-31 | no queue ever holds more than it was built for, and the defaults replace zero |
| `PipelineQueues.SubmitExactly` | src/audit/ingestion/bounded_ingestion_queue.cpp:13-31 | a submit past the accepting check is refused exactly when the queue is full or shut, and changes nothing then |
| `PipelineQueues.AcceptedWasOffered` | src/audit/ingestion/audit_ingestion_pipeline.cpp:61-66 | a submit that returns true passed the accepting check before shutdown began |
| `PipelineQueues.QueuesKeepOrder` | src/audit/ingestion/batch_aggregator.cpp:13-49 | every queue hands on what it was given in the order it was given it: accepted envelopes to the workers, validated ones to the aggregator, batches to the insert workers |
| `PipelineQueues.FlushesExactlyWhen` | src/audit/ingestion/batch_aggregator.cpp:123-194 | the active batch is swapped out exactly when it reaches its size, when its delay has elapsed, or when the drained aggregator flushes the rest, and it is the whole active batch |
| `PipelineWitness.ShutdownReturns` | src/audit/ingestion/audit_ingestion_pipeline.cpp:28-66 | for every envelope and either answer of the repository there is such a run: the envelope is accepted, shutdown returns, and it was completed with that answer |
| `PipelineSafety.NeverLostNeverTwice` | src/audit/ingestion/insert_worker_pool.cpp:61-132 | at every moment an accepted envelope is in exactly one place or completed once, and none was dropped |
| `PipelineSafety.AggregatorLedgerBalances` | src/audit/ingestion/batch_aggregator.cpp:123-194 | at every moment dispatched batches, the batch in hand and the active batch spell the sequence popped; every batch has 1 to max_batch_size items; dispatched equals count triggers plus timer triggers, and the count triggers are exactly the full batches |
| `PipelineSafety.SuccessMeansStored` | src/audit/ingestion/insert_worker_pool.cpp:61-132 | an envelope completed as persisted was in a batch the repository accepted |
| `Base64.RoundTrip` | src/audit/query/audit_page_cursor.cpp:15-58 | each decoder gives back the bytes that were encoded, in either alphabet |
| `Base64.DecodersAgree` | src/auth/crypto/token_crypto.cpp:80-128 | the two base64url decoders agree on a text exactly when, trailing padding dropped, it has a foreign character, or else is padded just when its length is 1 modulo 4; otherwise exactly one accepts |
| `Base64Codecs.EncodeStream` | src/audit/query/audit_page_cursor.cpp:15-33 | the streaming encoder with its wrapping 32-bit accumulator writes the six-bit groups of the input |
| `Base64Codecs.DecodeStream` | src/audit/query/audit_page_cursor.cpp:35-58 | the streaming decoder refuses exactly the texts with a foreign character and otherwise gives the whole bytes of the bits |
| `Base64Codecs.EncodeUrl` | src/auth/crypto/token_crypto.cpp:45-70 | the block encoder writes the same text as the streaming one, for every input |
| `Base64Codecs.DecodeUrl` | src/auth/crypto/token_crypto.cpp:80-128 | padding is dropped, a length of 1 modulo 4 and foreign characters are refused, everything else gives the whole bytes of the bits |
| `Base64Codecs.EncodeUnpadded` | src/auth/crypto/argon2id_hasher.cpp:23-53 | the standard-alphabet encoder writes the six-bit groups of the input |
| `Base64Codecs.DecodeUnpadded` | src/auth/crypto/argon2id_hasher.cpp:55-125 | as the block decoder, in the standard alphabet |
| `Base32.Encode` | src/auth/crypto/base32.cpp:31-65 | the loop writes the five-bit groups of the input, padded to a multiple of eight if asked |
| `Base32.Decode` | src/auth/crypto/base32.cpp:67-118 | the loop skips separators, refuses letters behind padding, foreign characters and non-zero residual bits, and otherwise gives the whole bytes |
| `Base32.RoundTrip` | src/auth/crypto/base32.cpp:31-118 | decoding undoes encoding, with and without padding |
| `Base32.AcceptedTexts` | src/auth/crypto/base32.cpp:67-118 | decoding gives these bytes exactly when padding comes last and the letters, upper-cased, are the encoding of the bytes, or that and one more 'A' where the byte count is 0, 1 or 3 modulo 5 |
| `CodecTables.Base64Alphabet` | src/audit/query/audit_page_cursor.cpp:13-13 | the digits of base64url and base64 are written with the letters of tables 2 and 1 of RFC 4648 |
| `CodecTables.Base32Alphabet` | src/auth/crypto/base32.cpp:9-9 | the digits of Base32 are written with the letters of table 3 of RFC 4648 |
| `CodecTables.HexTable` | src/audit/domain/event_id.cpp:88-94 | identifiers are written in lower-case hexadecimal |
| `CodecTables.EscapeTable` | src/audit/repository/clickhouse_event_serializer.cpp:73-96 | tab, newline, backslash and zero are escaped each in its own way, every other byte stands for itself |
| `CodecTables.CaseTable` | src/audit/domain/sensitive_data_guard.cpp:18-23 | changing case exchanges the letters at one place of the alphabet and leaves every other character alone |
| `CodecTables.SpaceTable` | src/audit/repository/append_only_sql_guard.cpp:77-86 | white space is the blank and the five control characters from tab to carriage return |
| `CodecTables.AlnumTable` | src/audit/domain/sensitive_data_guard.cpp:25-28 | alphanumeric are the letters of either case and the digits |
| `CodecTables.ClassTables` | src/audit/domain/sensitive_data_guard.cpp:25-28 | a token segment is written in exactly the base64url alphabet, a word of SQL in letters, digits and underscores, and Base32 skips exactly white space and hyphens |
| `CodecTables.BigEndianDigit` | src/audit/domain/event_payload_fingerprint.cpp:15-41 | byte i of a big-endian number is its digit of that weight |
| `CodecTables.MillisCutTowardsZero` | src/audit/domain/event_payload_fingerprint.cpp:66-69 | instants are cut to whole milliseconds towards the epoch |
| `PageCursor.PackedInjective` | src/audit/query/audit_page_cursor.cpp:167-200 | two representable cursors with the same bytes are the same cursor |
| `PageCursor.OpensOnce` | src/audit/query/audit_page_cursor.cpp:202-279 | a token opens as at most one cursor |
| `PageCursor.TokenRoundTrip` | src/audit/query/audit_page_cursor.cpp:167-279 | the token of a cursor with strings below 65536 bytes and a nil or version 7 id opens as that cursor under its own filter hash and as nothing under any other |
| `PageCursor.EncodeCursor` | src/audit/query/audit_page_cursor.cpp:167-200 | the byte loops write the cursor's layout and its token |
| `PageCursor.DecodeCursor` | src/audit/query/audit_page_cursor.cpp:202-279 | for every token: a cursor is returned exactly when the token's bytes are the layout of a representable cursor with the expected hash, and no read leaves the buffer |
| `AuditEvents.SortMetadata` | src/audit/domain/event_payload_fingerprint.cpp:106-110 | whatever order the metadata is met in, the keys come out in the one sorted order |
| `AuditEvents.FeedPayload` | src/audit/domain/event_payload_fingerprint.cpp:51-116 | the updates add up to the payload stream |
| `AuditEvents.PayloadBytesIdentify` | src/audit/domain/event_payload_fingerprint.cpp:15-116 | two events have the same stream exactly when they agree in everything but the time of receipt and the part of the time of occurrence below a millisecond |
| `QueryFilter.NormalizedIsValidated` | src/audit/query/audit_query_validator.cpp:17-94 | a filter that passes differs only in the defaulted bounds and page size, and passes again unchanged at any later time |
| `FilterRules.DottedExactly` | src/audit/query/audit_query_validator.cpp:10-13 | the check on event types is the regular expression: two or more non-empty words of lower-case letters, digits and underscores joined by dots |
| `FilterRules.IsSafeIdentifier` | src/audit/query/audit_query_validator.cpp:116-126 | accepted exactly when there are 1 to the limit of printable ASCII characters and no quote of any kind |
| `FilterRules.VerdictExactly` | src/audit/query/audit_query_validator.cpp:17-94 | for every filter the verdict is the error of the first violated rule, with the rules and their errors listed in order, and acceptance exactly when none is; what is accepted is the filter with the bounds and page size that count |
| `FilterRules.ValidateAndNormalize` | src/audit/query/audit_query_validator.cpp:17-94 | the validator, writing the defaults into the filter and looping over the event types, gives that verdict |
| `FilterRules.AcceptedExactly` | src/audit/query/audit_query_validator.cpp:17-106 | with the token: accepted exactly when every rule is kept and a given token opens under the filter's own hash, which is checked last |
| `QueryFilter.FeedFilter` | src/audit/query/audit_page_cursor.cpp:83-158 | the updates add up to the filter stream, on machines of either byte order |
| `QueryFilter.FilterBytesIdentify` | src/audit/query/audit_page_cursor.cpp:60-158 | two validated filters have the same stream exactly when they are the same query up to list order, page size, token and milliseconds |
| `QueryFilter.DefaultBoundsMoveWithTheClock` | src/audit/query/audit_query_validator.cpp:20-28 | with defaulted bounds the stream is the same later exactly when both bounds fall in the same milliseconds again |
| `PagedQuery.AcceptedStaysAccepted` | src/audit/query/audit_query_validator.cpp:17-106 | what the whole validation passes differs only in the defaults, its token opens under its own hash, and it passes again unchanged at any later time |
| `PagedQuery.MapPage` | src/audit/query/audit_query_application_service.cpp:68-92 | there is more exactly when the lookahead row came; it is not delivered; then the token opens as the cursor of the last row delivered and as nothing else exactly when that row fits the cursor's layout (strings below 65536 bytes, a nil or version 7 id); without more rows it is empty |
| `PagedChain.AnswerListing` | src/audit/repository/clickhouse_query_builder.cpp:118-131 | however ties are ordered, the rows left by one row per id carry each selected key once, in the sort order |
| `PagedChain.ListingResumes` | src/audit/repository/clickhouse_query_builder.cpp:105-123 | the rows behind the i-th key of the listing are exactly the rest of the listing |
| `PagedChain.HandedOutTokenOpens` | src/audit/query/audit_query_application_service.cpp:32-42 | a token handed out for a query is accepted by that query with any page size |
| `PagedChain.ServedPageAdvances` | src/audit/query/audit_query_application_service.cpp:15-96 | a served page holds the next keys of the listing, at most a page of them, and says truly whether there are more |
| `PagedChain.ReachedRequestIsServed` | src/audit/query/audit_query_application_service.cpp:15-96 | a request with a token its query handed out, valid otherwise, is accepted and gets a page |
| `PagedChain.EveryListingCanBeFollowed` | src/audit/query/audit_query_application_service.cpp:25-96 | from wherever a listing stands, following the tokens reaches a page that says there is no more |
| `PagedChain.FollowingTokensDeliversEverythingOnce` | src/audit/query/audit_query_application_service.cpp:25-96 | following the tokens with any page sizes delivers matching events in the sort order with distinct ids; every page that promises more is non-empty; the last page says there is no more exactly when every matching id was delivered; pages are at most matching ids plus one |
| `PagedText.TextServesTheSamePage` | src/audit/repository/clickhouse_audit_event_repository.cpp:122-135 | over stored rows that survive the row text, a page read from the text of the answer is a page of the rows themselves and conversely, for every request |
| `PagedText.FollowingTokensOnText` | src/audit/repository/clickhouse_audit_event_repository.cpp:122-135 | so following the tokens delivers everything once, as above, with every page read from text |
| `RowColumns.WrittenByName` | src/audit/repository/clickhouse_event_serializer.cpp:128-147 | position k of a written row holds the k-th column the query selects |
| `RowColumns.ReadByName` | src/audit/repository/clickhouse_event_serializer.cpp:166-208 | position k of a row is read into the field of the k-th column the query selects |
| `SqlGuard.HasKeyword` | src/audit/repository/append_only_sql_guard.cpp:58-74 | the skipping scan finds a keyword exactly when it occurs as a whole word |
| `SqlGuard.CheckForbiddenKeywords` | src/audit/repository/append_only_sql_guard.cpp:51-75 | accepted exactly when no forbidden keyword is a word of the statement in any case, INSERT exempted where allowed |
| `SqlGuard.CheckNoChaining` | src/audit/repository/append_only_sql_guard.cpp:77-86 | accepted exactly when nothing but white space follows a semicolon |
| `SqlGuard.ValidateQuerySql` | src/audit/repository/append_only_sql_guard.cpp:90-106 | accepted exactly when the statement begins with the word SELECT, is one statement and names no forbidden keyword |
| `SqlTemplate.SafeNamesNoKeyword` | src/audit/repository/append_only_sql_guard.cpp:43-75 | a text of words and gaps none of whose words is a keyword contains no keyword as a whole word anywhere |
| `SqlBuilder.BuildFilterQuery` | src/audit/repository/clickhouse_query_builder.cpp:8-135 | the text is a function of list lengths, present options and sort order only; the placeholders a scan of it finds are exactly the bound parameters; the guard accepts it |
| `SqlBuilder.PlaceholdersAreBound` | src/audit/repository/clickhouse_query_builder.cpp:33-131 | for every filter and cursor the placeholders found by scanning the text are the names bound |
| `SqlBuilder.GuardAcceptsTemplate` | src/audit/repository/clickhouse_query_builder.cpp:15-130 | the guard accepts the text of every filter and cursor |
| `SqlBuilder.ListBindingAt` | src/audit/repository/clickhouse_query_builder.cpp:36-83 | the i-th value of a list is bound to the i-th name |
| `SqlParameters.GroupsApart` | src/audit/repository/clickhouse_query_builder.cpp:33-131 | no two of the nine groups of parameters share a name, for lists of any length |
| `SqlParameters.GroupsReachTheQuery` | src/audit/repository/clickhouse_query_builder.cpp:33-131 | so every parameter reaches the query with the value its group gave it |
| `SqlSyntax.QueryReads` | src/audit/repository/clickhouse_query_builder.cpp:15-130 | reading the lexemes of a query of this grammar gives the query back |
| `SqlLexing.TextLexes` | src/audit/repository/clickhouse_query_builder.cpp:15-130 | reading the characters of a template finds exactly its words, punctuation and placeholders |
| `SqlReading.TemplateReads` | src/audit/repository/clickhouse_query_builder.cpp:15-130 | for every shape the built text reads as one query: these columns, conditions in this order, tuple comparison towards the sort direction, sort keys, one row per event_id, this limit |
| `SqlMeaning.OrderIsTupleOrder` | src/audit/repository/clickhouse_query_builder.cpp:105-123 | sorting column by column, all ascending or all descending, is the lexicographic order on the tuples of the columns, for every list of columns |
| `QueryMeaning.OrderMeans` | src/audit/repository/clickhouse_query_builder.cpp:118-123 | the built ORDER BY is the key order: millisecond of occurrence, producer, event type, id, in the direction asked for |
| `QueryMeaning.ConditionsMean` | src/audit/repository/clickhouse_query_builder.cpp:19-116 | a row satisfies the built conditions under the built parameters exactly when it matches the filter and lies strictly behind the cursor in the sort order |
| `QueryMeaning.FetchesMeans` | src/audit/repository/clickhouse_query_builder.cpp:8-135 | the answers to the built text and parameters are exactly: the matching rows behind the cursor, sorted, first row per id, cut to one more than a page |
| `Splitting.Tokens` | src/auth/crypto/argon2id_hasher.cpp:142-152 | the find loop cuts at every separator and yields nothing behind one at the end |
| `Splitting.SplitJoin` | src/audit/repository/clickhouse_event_serializer.cpp:154-164 | pieces without the separator, the last one non-empty, come back from their join |
| `Splitting.SplitExactly` | src/auth/crypto/argon2id_hasher.cpp:142-152 | the pieces are the one way to write the text as parts with separators between them and perhaps one at the end |
| `TabSeparated.EscapeText` | src/audit/repository/clickhouse_event_serializer.cpp:73-96 | the loop escapes byte by byte |
| `TabSeparated.UnescapeText` | src/audit/repository/clickhouse_event_serializer.cpp:20-51 | the loop reads escapes as the recursive definition does, unknown ones literally |
| `TabSeparated.EscapeRoundTrip` | src/audit/repository/clickhouse_event_serializer.cpp:20-96 | unescaping undoes escaping |
| `TabSeparated.EscapedField` | src/audit/repository/clickhouse_event_serializer.cpp:73-96 | an escaped field has no tab or newline, is never the null marker, and is empty only if the field is |
| `TabSeparated.IdTextRoundTrip` | src/audit/domain/event_id.cpp:51-94 | the text of an id reads back as that id exactly when it is a version 7 id |
| `TabSeparated.MetadataRoundTrip` | src/audit/repository/clickhouse_event_serializer.cpp:53-69 | metadata reads back, whatever order it was written in, exactly when no key has ',' or ':' and no value has ',' |
| `EventRows.RowSurvivesExactly` | src/audit/repository/clickhouse_event_serializer.cpp:128-212 | writing one event and reading the text gives it back exactly when its id is nil or version 7, the time of receipt is set, the causation id is not the empty string and the metadata is plain |
| `EventRows.BatchRoundTrip` | src/audit/repository/clickhouse_event_serializer.cpp:128-212 | writing a batch and reading the text gives the events back, in order, exactly when every event is one that survives |
| `EventRows.SerializeForInsert` | src/audit/repository/clickhouse_event_serializer.cpp:128-147 | one line of fourteen tab-separated columns per event, in order |
| `EventRows.DeserializeFromQuery` | src/audit/repository/clickhouse_event_serializer.cpp:149-212 | lines that are empty or short of fourteen tokens are skipped, every other one gives its event, in order |
| `PasswordHash.ParseVerifier` | src/auth/crypto/argon2id_hasher.cpp:136-244 | the token and parameter loops compute the recursive parse |
| `PasswordHash.AcceptedVerifiers` | src/auth/crypto/argon2id_hasher.cpp:136-244 | exactly these strings parse, to exactly these values: five parts behind dollar signs and perhaps one more sign, version 16 or 19, m, t and p in any order with the last of each counting and within its limits, base64 salt and hash of allowed lengths |
| `PasswordHash.PrintedParses` | src/auth/crypto/argon2id_hasher.cpp:136-244 | parsing what hash_password prints gives back cost, salt and hash exactly when they are within the parser's limits, and nothing beyond them |
| `PasswordHash.OwnVerifierAccepted` | src/auth/crypto/argon2id_hasher.cpp:289-366 | a hasher accepts its own verifier exactly when its settings, raised to their minima, are within the parser's maxima; any other password passes exactly when it derives the same key |
| `PasswordHash.PasswordPassesExactly` | src/auth/crypto/argon2id_hasher.cpp:342-366 | for every stored string, a password passes exactly when the string is a verifier and the key derived with the salt, cost, version and length it names is its hash |
| `PasswordHash.RaisedToMinimum` | src/auth/crypto/argon2id_hasher.cpp:289-305 | each setting is kept at or above its minimum and raised to it below |
| `Redaction.SanitizeDiagnostic` | src/audit/domain/sensitive_data_guard.cpp:100-122 | the loops terminate although the text grows, and the result is clean |
| `Redaction.SanitizedIsClean` | src/audit/domain/sensitive_data_guard.cpp:11-23 | for every input the result has no PEM header and no forbidden term in any case |
| `Redaction.SanitizedFixpoint` | src/audit/domain/sensitive_data_guard.cpp:100-122 | a text is left alone exactly when it is clean, and sanitizing again changes nothing |
| `RedactionReference.ScrubIsReplacement` | src/audit/domain/sensitive_data_guard.cpp:103-109 | the loop that rewrites a growing text in place leaves what is before its position and replaces every occurrence behind it, from the left and without overlap, by the mark |
| `RedactionReference.SanitizedReplacesOnly` | src/audit/domain/sensitive_data_guard.cpp:100-122 | for every input the result is the input with every PEM header and then every forbidden term, in any case, replaced by the mark, and every other character in its place |
| `Redaction.ContainsJwt` | src/audit/domain/sensitive_data_guard.cpp:30-63 | the skipping scan reports a token exactly when three dot-joined segments starting with "eyJ" occur |
| `RefreshTokens.RefreshTokenRepository.CreateToken` | src/auth/repository/refresh_token_repository.cpp:58-83 | inserts exactly when id and verifier are unused; otherwise refuses as a duplicate and changes nothing |
| `RefreshTokens.RefreshTokenRepository.RotateTokenAtomic` | src/auth/repository/refresh_token_repository.cpp:138-186 | over the old table: done exactly when the old token is there, active and not past its expiry and the new id and verifier are unused; then only these two rows change; each refusal has its condition and changes nothing |
| `RefreshTokens.RefreshTokenRepository.HandleTokenReuse` | src/auth/repository/refresh_token_repository.cpp:196-229 | over the old tables: done exactly when the verifier's token was rotated; then its session and the active tokens of that session are revoked and every other row is unchanged; otherwise nothing changes |
| `RefreshTokens.CreateExactly` | src/auth/repository/refresh_token_repository.cpp:58-83 | a create succeeds exactly when id and verifier are unused and then adds that one row |
| `RefreshTokens.RotateExactly` | src/auth/repository/refresh_token_repository.cpp:138-186 | a rotation succeeds exactly when the old token exists, is active and not past its expiry and id and verifier of the new one are unused; each refusal has its own condition and changes nothing; success marks the old row, adds the new one and touches no other |
| `RefreshTokens.ReuseExactly` | src/auth/repository/refresh_token_repository.cpp:196-229 | a presented verifier revokes a session exactly when its token was rotated; then the active rows of that session are revoked and every other row, of that session or another, is as it was |
| `RefreshTokens.SettledForever` | src/auth/repository/refresh_token_repository.cpp:34-45 | in every run statuses only leave Active: a token no longer active never changes again |
| `RefreshTokens.ReplacementsFormChains` | src/auth/repository/refresh_token_repository.cpp:138-186 | in every run replacement links lead from rotated tokens to existing ones, form no cycle, and no token has two predecessors |
| `RefreshTokens.OneActivePerSession` | src/auth/repository/refresh_token_repository.cpp:138-229 | in every run a session into which at most one create succeeded never has two active tokens |
| `RefreshTokens.ReuseDetectedExactly` | src/auth/repository/refresh_token_repository.cpp:196-229 | in every run a presented verifier is reported as reused exactly when some earlier step rotated its token away, however much happened since |
| `RefreshTokens.ReuseIsDetected` | src/auth/repository/refresh_token_repository.cpp:196-229 | and the session revoked and swept is the one the token belonged to when it was rotated |
| `RefreshTokens.ReuseEndsTheSession` | src/auth/repository/refresh_token_repository.cpp:196-229 | after that no token of the session is active while no create into it succeeds |
| `RefreshTokens.ReuseEndsTheSessionExactly` | src/auth/repository/refresh_token_repository.cpp:58-229 | after that a token of the session is active at some later moment exactly when a later create into it succeeded, for every continuation of the run |
| `RefreshTokens.RevokedSessionReopens` | src/auth/repository/refresh_token_repository.cpp:58-83 | a create after the reuse does make the revoked session active again: the repository looks at no session status |

## Left out

- The server builds the ingestion service without a cache (src/audit/audit_server.cpp:69); the ingestion results are about the service built with one.
- ingest_batch has no guard: when the repository call or a fingerprint throws, what the batch had reserved stays behind. `IngestionSafety.InFlightExactly` says exactly when that is; the results about returning calls do not cover a batch that threw.
- InFlightReservationGuard is not a class of its own: its destructor is the guarded branch of the throwing steps, and its moves, which only pass ownership inside one call, are absent.
- PipelineSafety.ShutdownCompletesEveryAcceptedEnvelope: is about the call that wins `running_.exchange(false)` (src/audit/ingestion/audit_ingestion_pipeline.cpp:42); a second, concurrent call returns at once and promises nothing.
- PageCursor.DecodeCursor: reads are slices of the buffer; that src/audit/query/audit_page_cursor.cpp:239 forms the address one behind the last byte when an empty event type ends the buffer is not modelled, nothing is read there.
- The ingestion service and the pipeline are step systems over values, one step per locked section, flag access or completion, rather than classes with threads; wall-clock timeouts are nondeterministic and only safety is proved.
- Ingestion item results carry status, payload, error code and received_at where it is not the clock, not the error messages; event validation is an arbitrary verdict.
- Queue watermarks, pop_batch, worker counters and all metrics.
- The in-memory deduplication manager of the validation pool is an arbitrary verdict; the pipeline installs the one that never reports a duplicate.
- The query authorizer, the concurrency bulkhead, repository exceptions and get_event_by_id.
- PagedChain.FollowingTokensDeliversEverythingOnce: stated for explicit time bounds and a fixed store whose rows with one id share the sort key and fit the cursor's layout; with defaulted bounds the hash moves with the clock.
- QueryFilter.NormalizedIsValidated: the validator without its page-token check, which needs the cursor; `PagedQuery.AcceptedStaysAccepted` and `FilterRules.AcceptedExactly` have all of it.
- PagedText.TextServesTheSamePage: the answer's text is that of the stored rows as the serializer writes them, metadata keys in any order; a row that does not survive its own text reads back as `EventRows.RowSurvivesExactly` says and is not followed further.
- SqlMeaning: lexing and grammar cover the audit query only, column values are numbers, byte strings and UUIDs, and correlation_id is text although the migration declares it a UUID.
- QueryFilter.FilterBytesIdentify: producer and severity lists are shorter than 2^32, the range of their counts.
- AuditEvents.PayloadBytesIdentify: strings and metadata are shorter than 2^32, the range of their length prefixes.
- EventRows.BatchRoundTrip: calendar conversion and enumeration names are assumed to read back what they print for the whole non-negative milliseconds of the 64-bit clock and known values.
- SqlBuilder.BuildFilterQuery: the text is put together from words, gaps and placeholders instead of stream fragments; build_get_by_id_query is not modelled.
- Foreign keys, isolation inside a PostgreSQL transaction, and the device and session checks of the token manager.
- EventId generation and timestamp extraction, the HTTP client, gRPC and configuration loading.
- SHA-256, HMAC, Argon2, AES-GCM, Ed25519 and random bytes are parameters or absent.
