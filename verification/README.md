# Verified model of the QQ group message pipeline

The project models the parts of the repository that carry its hardest guarantees, and proves them
for all inputs and all runs.

- **Message trees.** `MessageBody`, `Parser` and `OfficialParser` turn an arbitrary JSON payload into a
  typed segment tree under a shared node budget and a combined forward and reply depth.
  `ParserLimits` and `ParserAccounting` say exactly when a limit shows and what a parse pays for;
  `ParserContents` says that a tree says what its payload says. `MessageRows`, `MessageCodec`,
  `CodecBlocks`, `CodecRoundTrip`, `CodecDepth`, `CodecMalformed`, `CodecAcceptance` and `CodecFaults` are
  the row codec: encoding, decoding of any row set, the round trip, what happens to malformed rows, exactly
  which row sets decode, and what an error means.
- **Image enrichment.** `ImageEnrichment` is the walk and the cache as functions, `ImageService` the
  classes; `ImageBudget`, `ImageIsolation` and `ImageCache` prove the budget, the separation of groups
  and the agreement with a pass that has no cache; `ImageShown` says what an enriched message shows.
- **The outbox protocol.** `Outbox` is the row state machine with its repository class. `Protocol` is
  the step relation of receipts, workers, handlers, crashes, restarts and prunes; `ProtocolSafety`,
  `ProtocolProgress` and `ProtocolMarks` prove its invariants and bounds over every run. `Handlers` and `OutboxWorker`
  are the handlers and the worker in program order. At every await the other workers may take any
  steps, and each execution is proved to extend the run by its own actions and theirs.
- **Storage.** `Conversation` and `ConversationOutcome` are the two conversation queries, `MessageStore`
  the message repository, `RawEvents` idempotent receipts and the chunked prune, `EventProcessor` and
  `EventOutcome` the producer over all tables.
- **Summaries.** `Summary`, `SummaryRun` and `SummaryService` split a long window, call the provider
  and merge chunk summaries; `SummaryOutcome` says which answers a summary comes from.
- `Values`, `Domain` and `Sequences` hold shared data types and sequence functions.

Where the code changes state step by step the model is a class or a loop, proved equal to a function
on values; the theorems are about that function. JSON leaves, the renderer, regular expressions, the
resolver, the vision model, the text model and the platform are opaque functions. The resolver and the
vision model may answer differently after every earlier call of the same batch, and the text model
after every earlier request, unless a theorem says otherwise.

Some promises do not hold of the code as they are documented:

- `list_conversation_before` is documented never to repeat the trigger. It can return the trigger's own
  receipt, when that was parsed again with an earlier timestamp (`Conversation.ReparsedTriggerIsListed`),
  and another receipt of the trigger's message at the same time, although the trigger's newest
  representation has the trigger's time (`Conversation.TwinReceiptIsListed`). Exactly when either
  happens, for every limit, is `Conversation.TriggerReceiptIsListedExactly` and
  `Conversation.TriggerMessageIsListedExactly`. The assistant's context filters the message out again.
- A row set with a parent cycle is always refused, but not always as orphaned rows
  (`CodecMalformed.CycleMayShowAnotherError`). It is refused as orphaned rows if and only if every row on
  a way down from the roots is sound: of a fitting kind, with complete columns and payload, and with no
  child under a relation its kind does not have (`CodecAcceptance.UprootedIsOrphanedExactly`). Whether
  the rows off those ways would decode does not matter. With the same condition
  `CodecAcceptance.DecodesExactly` says which row sets decode.
- The errors for entering a row again, "cycle detected" among them, cannot occur while row ids are unique
  (`CodecMalformed.UniqueRowsAreEnteredOnce`), and ids are the table's primary key. In a list of rows that
  repeats an id they can (`CodecMalformed.RepeatedIdIsReferencedTwice`); such lists are not characterized
  further.
- The cached image pass shows what a pass without a cache shows unless it turns a URL away. It turns none
  away if and only if the budget covers every resource and no resource that cannot be described has
  more than two URLs (`ImageCache.NothingTurnedAwayExactlyWhenGenerous`).
- A duplicate receipt adds no outbox row unless the row of its trigger was pruned meanwhile
  (`EventProcessor.LateDuplicateExactly`).

## Model

| member | source | states |
|---|---|---|
| MessageBody.ContentIsPreserved | app/parsers/qq_official_message_parser.py:328-405 | For every non-empty text content the text and mention segments spell it out again. The mention segments are the content's tokens that name an entry of the mention table, in order, each with its entry; the entries no token names are reported, each once. |
| MessageBody.TokensAreTheTokens | app/parsers/qq_official_message_parser.py:356-357 | The matches are tokens `<@`, one or more characters but no '>', '>'; they do not overlap, and every place where a token could begin belongs to one. |
| MessageBody.TokensAreUnique | app/parsers/qq_official_message_parser.py:356-357 | Only one list of matches is like that. |
| MessageBody.TableIsTheMentions | app/parsers/qq_official_message_parser.py:346-352 | The mention table holds each mentioned id once, in the order of its first mention, with the fields of its last. |
| MessageBody.AttachmentsAreShown | app/parsers/qq_official_message_parser.py:407-464 | One segment for each attachment, in order, which keeps it raw: an image for an image type, a file for a file, and otherwise an unknown segment named after the type. |
| MessageBody.BodyIsNumbered | app/parsers/qq_official_message_parser.py:318-464 | Content, mention and attachment segments are numbered without a gap and hold no nested list. |
| OfficialParser.QQOfficialMessageParser.Parse | app/parsers/qq_official_message_parser.py:81-123 | Parsing with one mutable state gives the message of the bounded parse, and nothing for other event types or a payload that is no object. |
| OfficialParser.QQOfficialMessageParser.ParseSegments | app/parsers/qq_official_message_parser.py:125-147 | Forward, reply and plain payloads; the budget left and the restored reference depth are those of the bounded parse. |
| OfficialParser.QQOfficialMessageParser.ForwardSegment | app/parsers/qq_official_message_parser.py:149-220 | A forward's content, status and nodes, with the depth limit, for every element list. |
| OfficialParser.QQOfficialMessageParser.ForwardNodes | app/parsers/qq_official_message_parser.py:169-211 | The loop takes one node off the shared budget per element and stops at zero. |
| OfficialParser.QQOfficialMessageParser.ReplySegments | app/parsers/qq_official_message_parser.py:222-280 | Unresolved, depth-limited and resolved replies. |
| OfficialParser.QQOfficialMessageParser.ReplyElements | app/parsers/qq_official_message_parser.py:251-280 | The loop over reply elements pays one node each and ends in one node-limit segment that keeps the rest. |
| OfficialParser.QQOfficialMessageParser.ResolvedReplyMessage | app/parsers/qq_official_message_parser.py:282-316 | The reference depth is raised for the quoted message and restored. |
| OfficialParser.QQOfficialMessageParser.ContentSegments | app/parsers/qq_official_message_parser.py:328-405 | The cursor loop over mention tokens computes the content segments. |
| OfficialParser.QQOfficialMessageParser.AttachmentSegments | app/parsers/qq_official_message_parser.py:407-464 | One numbered segment per attachment, in order. |
| ParserLimits.LimitsShowExactlyWhenExceeded | app/parsers/qq_official_message_parser.py:125-316 | A bounded parse carries no limit status if and only if the payload's element count and nesting fit; then it equals the parse without limits. |
| ParserAccounting.ParseIsAccounted | app/parsers/qq_official_message_parser.py:125-316 | The budget paid is the number of forward nodes and element-backed replies in the result; sibling lists are numbered from 0; no path exceeds the depth; every node's provenance counts the forward nodes above it. |
| ParserAccounting.ParsedMessageIsAccounted | app/parsers/qq_official_message_parser.py:81-123 | The same for every message the parser returns, whose charge never exceeds the configured nodes. |
| ParserContents.TreeSaysWhatIsWritten | app/parsers/qq_official_message_parser.py:125-464 | The tree of any payload says exactly what is written in it, character by character and attachment by attachment, quoted and forwarded elements included, with nothing lost, repeated or moved. |
| ParserContents.UncutMessageSaysWhatIsWritten | app/parsers/qq_official_message_parser.py:81-123 | So does every message the parser returns that no limit cut. |
| ParserContents.ElementsAreKept | app/parsers/qq_official_message_parser.py:149-316 | Whatever the limits, a forward keeps its payload, and its nodes and a message's quotes keep the elements they stand for in order, with their authors; when the budget runs out a last quote keeps the rest. |
| ParserContents.KindsOfMessages | app/parsers/qq_official_message_parser.py:125-147 | A message of type 102 is one forward, one of type 103 begins with at least one quote, and any other has neither. |
| ParserContents.QuotedBodyIsPlain | app/parsers/qq_official_message_parser.py:290-296 | A quoted message that quotes without elements of its own is not given another quote. |
| ParserContents.MessageDescribesTheEvent | app/parsers/qq_official_message_parser.py:81-123 | Exactly the events that envelop an object as a group message give a message, in either form of the envelope, and it names the object's id, group, author and time. |
| ParserContents.ScalarsAreRead | app/parsers/qq_official_message_parser.py:547-565 | Which scalars count as text and as a number. |
| ParserContents.OffsetsAreRead | app/parsers/qq_official_message_parser.py:568-574 | Every `Z` of a timestamp is read as an offset, and nothing else is changed. |
| MessageCodec.Encode | app/storage/message_codec.py:43-80 | Encoding in place appends exactly the rows of the encoding function, or fails for a missing receipt or an empty parser name or version. |
| MessageCodec.EncodeSegment | app/storage/message_codec.py:128-170 | One segment appends its row and everything below it. |
| MessageCodec.EncodeForwardNode | app/storage/message_codec.py:173-203 | A forward node appends its row, identity, provenance and content. |
| MessageCodec.EncodeResolvedMessage | app/storage/message_codec.py:206-235 | A resolved message appends its row and its segments. |
| MessageCodec.NodeDecoder.Enter | app/storage/message_codec.py:468-474 | A row is refused when it is being decoded or was decoded, and is marked otherwise. |
| MessageCodec.NodeDecoder.DecodeItem | app/storage/message_codec.py:347-463 | Decoding with mutable sets agrees with the decoding function, error by error. |
| MessageCodec.Decode | app/storage/message_codec.py:83-125 | Decoding any row set of a record gives the message or the error of the decoding function. |
| CodecRoundTrip.TreeRoundTrips | app/storage/message_codec.py:43-125 | Whatever ids the nodes get and however the rows are shuffled, decoding restores the segments. |
| CodecRoundTrip.MessageRoundTrips | app/storage/message_codec.py:43-125 | The same for the whole message with its identities and provenance. |
| CodecRoundTrip.ParsedMessageRoundTrips | app/storage/message_codec.py:43-125 | Every message the parser builds from a stored receipt can be encoded, and with a zone-aware timestamp comes back from any shuffle of its rows. |
| CodecDepth.DepthsCountAncestors | app/storage/message_codec.py:128-235 | The depth of an encoded row is the number of rows above it. |
| CodecMalformed.DecodedTreeHasEveryRow | app/storage/message_codec.py:488-490 | A decoded tree has exactly one node for each row. |
| CodecMalformed.DecodedTreeIsRooted | app/storage/message_codec.py:465-490 | No decoded row set has a group of rows that all hang under each other. |
| CodecMalformed.UprootedRowsAreOrphans | app/storage/message_codec.py:488-490 | Rows on or under a parent cycle are never visited: decoding is what it is without them, except that success becomes the orphan error. |
| CodecAcceptance.DecodesExactly | app/storage/message_codec.py:337-490 | A row set with unique ids decodes if and only if every row is on a way down from the roots and every row on such a way is sound; it is refused as orphaned rows if and only if the latter holds and some row is on no such way. |
| CodecAcceptance.UprootedIsOrphanedExactly | app/storage/message_codec.py:465-490 | Rows on or under a parent cycle are refused as orphaned if and only if every row on a way down from the roots is sound; otherwise for one of those rows. |
| CodecAcceptance.MessageDecodesExactly | app/storage/message_codec.py:83-125 | The same for stored messages: all rows belong to the message, and its own identities and provenance are complete. |
| CodecFaults.ErrorsAreTrue | app/storage/message_codec.py:334-490 | An error of decoding is the fault of a row on a way down from the roots that shows it, or of a row on no such way. |
| CodecMalformed.CycleMayShowAnotherError | app/storage/message_codec.py:415-416 | A row set with a parent cycle whose decoding ends in another error. |
| CodecMalformed.UniqueRowsAreEnteredOnce | app/storage/message_codec.py:468-474 | With unique ids the cycle and double-reference errors cannot occur. |
| CodecMalformed.RepeatedIdIsReferencedTwice | app/storage/message_codec.py:468-474 | A row set with a repeated id that is refused for entering a row twice. |
| ImageWalk.WalkFollows | app/services/image_enrichment.py:117-170 | Two sources of descriptions that stay related and answer alike enrich every tree alike. |
| ImageBudget.DescribedKeeps | app/services/image_enrichment.py:180-195 | One display line keeps the batch maps equal to the calls made, whatever is answered. |
| ImageBudget.EveryBatchIsBounded | app/services/image_enrichment.py:92-111 | In every batch of every message sequence at most the configured number of resources is fetched, each at most twice, each URL once, none after it was described, and the same content is described once. |
| ImageIsolation.GroupsAreIsolated | app/services/image_enrichment.py:92-111 | Enriching a mixed sequence and keeping one group equals enriching that group alone, with or without an active scope, and leaves the scope's batch the same. |
| ImageIsolation.ScopeIsShared | app/services/image_enrichment.py:83-108 | With an active scope the messages of its group share its batch, and only they. |
| ImageIsolation.UngroupedMessageIsAlone | app/services/image_enrichment.py:102-110 | A message without a group never shares a batch. |
| ImageCache.CacheShowsTheVerdicts | app/services/image_enrichment.py:172-203 | With steady answers a batch shows the direct answer, except beyond the first resources of the budget and beyond two URLs of a resource that cannot be described. |
| ImageCache.CachedIsUncached | app/services/image_enrichment.py:172-244 | With enough budget the cached pass over any message sequence produces exactly what a pass without a cache produces. |
| ImageCache.EveryGroupIsUncached | app/services/image_enrichment.py:92-111 | So does each group of a mixed sequence, whatever the others need. |
| ImageCache.NothingTurnedAwayExactlyWhenGenerous | app/services/image_enrichment.py:180-188 | The cached pass over any messages turns no URL away if and only if the budget is enough for all their display URLs. |
| ImageCache.TurnedAwayIsNotLookedUp | app/services/image_enrichment.py:180-195 | A URL turned away gets a limit text and changes nothing; any other is cached or fetched. |
| ImageCache.WatchingIsThePass | app/services/image_enrichment.py:92-111 | Noting what is turned away changes neither what the pass shows nor its batch. |
| ImageWalk.PassMeets | app/services/image_enrichment.py:113-203 | A pass asks about exactly the display URLs of its messages. |
| ImageShown.UncachedShowsTheDescriptions | app/services/image_enrichment.py:113-292 | The pass without a cache shows every image line of a displayed text as that line with the description of its URL, or what went wrong with it, every other line as it is, every plain image with its description, and changes nothing else of any tree. |
| ImageShown.CachedShowsTheDescriptions | app/services/image_enrichment.py:113-292 | So does the cached pass when its budget is enough. |
| ImageShown.CachedShowsAnswers | app/services/image_enrichment.py:113-292 | Whatever is answered, also when answers change, the cached pass shows every image line with a limit text, an apology or something the vision model said, and changes nothing else. |
| ImageShown.ApologyTells | app/services/image_enrichment.py:230-239 | Which apology belongs to which failure. |
| ImageService.ImageEnrichmentService.EnrichMessages | app/services/image_enrichment.py:92-111 | The loop with its map of batches and the request's batch, used by the task that opened it only, gives the messages and the scope of the enrichment function; another task's batch stays as it is. |
| ImageService.ImageEnrichmentService.EnterScope | app/services/image_enrichment.py:83-90 | A request starts with a new empty batch that only its own task sees, and a token for what was there. |
| ImageService.ImageEnrichmentService.EnrichSegments | app/services/image_enrichment.py:117-136 | The loop over siblings is the walk. |
| ImageService.ImageEnrichmentService.EnrichSegment | app/services/image_enrichment.py:138-170 | Replies, forwards and their nodes are rebuilt around their enriched children. |
| ImageService.ImageEnrichmentService.DescribeDisplay | app/services/image_enrichment.py:172-203 | The loop over lines replaces exactly the image lines, and leaves a text without one alone. |
| ImageService.ImageEnrichmentService.DescribeUrl | app/services/image_enrichment.py:180-195 | The in-place cache decides as the cache function does. |
| ImageService.ImageEnrichmentService.DescribeDisplayImage | app/services/image_enrichment.py:205-244 | Download, validation, content cache and vision model, with their failures. |
| ImageService.ImageEnrichmentService.Describe | app/services/image_enrichment.py:246-292 | A plain image gets its description or the unavailable text, and an existing description is kept. |
| Outbox.MovesKeepTable | app/storage/interaction_outbox_repository.py:111-279 | Rows that only move forward stay a valid table. |
| Outbox.ClaimTakesTheFirst | app/storage/interaction_outbox_repository.py:111-150 | Claiming starts exactly the pending row with the smallest id and touches no other; the sweep of exhausted pending rows never fires. |
| Outbox.InteractionOutboxRepository.CreatePending | app/storage/interaction_outbox_repository.py:39-85 | One row per trigger: a pending, untried row with a new id, or the existing one; nothing for an invalid limit. |
| Outbox.InteractionOutboxRepository.ClaimNextPending | app/storage/interaction_outbox_repository.py:111-150 | The claimed row and the new table. |
| Outbox.InteractionOutboxRepository.MarkCompleted | app/storage/interaction_outbox_repository.py:152-169 | Exactly the running row of that id is completed, with time and response; otherwise nothing changes. |
| Outbox.InteractionOutboxRepository.MarkFailed | app/storage/interaction_outbox_repository.py:171-189 | Exactly the running row of that id fails; otherwise nothing changes. |
| Outbox.InteractionOutboxRepository.RequeueForRetry | app/storage/interaction_outbox_repository.py:191-221 | A running row goes back to pending while attempts are left, and fails otherwise. |
| Outbox.InteractionOutboxRepository.RecoverStaleRunning | app/storage/interaction_outbox_repository.py:245-279 | No row is running afterwards; exhausted ones failed, the others are pending. |
| Outbox.InteractionOutboxRepository.PruneTerminal | app/storage/interaction_outbox_repository.py:299-327 | Exactly the old terminal rows go. |
| ProtocolSafety.StepKeepsInv | app/services/interaction_outbox_worker.py:173-334 | Every step of receipts, workers, handlers, crashes, restarts and prunes keeps the protocol invariant. |
| ProtocolSafety.AtMostOneSend | app/services/group_assistant_handler.py:125-191 | Over every run no trigger is sent to twice. |
| ProtocolSafety.CompletedMeansDelivered | app/services/interaction_outbox_worker.py:275-326 | A completed row's trigger had a send that was reported delivered, in this process run or an earlier one; so had every trigger with a stored interaction. |
| ProtocolSafety.AttemptsAreBounded | app/services/interaction_outbox_worker.py:215-326 | Attempts stay within the limit, pending rows have one left, and the handler of a row runs at most once per attempt and at most once between two recoveries. |
| ProtocolSafety.WorkersAreBounded | app/services/interaction_outbox_worker.py:215-326 | Each busy worker owns a running row of its own, at most the configured number of permits is held, and no two summaries run for one group. |
| ProtocolMarks.MarksExactly | app/services/summary_command.py:157-227 | Over every run a group is marked as being summarized if and only if some worker is summarizing it. |
| ProtocolMarks.OuterStepsExactly | app/services/interaction_outbox_worker.py:173-208 | What a receipt, a crash, a start with or without recovery and a prune do to rows and process, and that none undoes a claim, a send or an interaction. |
| ProtocolProgress.MovesLowerRank | app/storage/interaction_outbox_repository.py:111-279 | Every changed row lowers the total of twice the attempts left plus one while running. |
| ProtocolProgress.TransitionsAreBounded | app/storage/interaction_outbox_repository.py:111-279 | A run makes at most twice the attempt limit of row transitions for each row it creates, so without new work rows stop changing. |
| ProtocolProgress.StepKeepsRows | app/storage/interaction_outbox_repository.py:111-327 | Terminal rows never change and only a prune removes them; other rows only move forward. |
| Handlers.GroupAssistantHandler.Handle | app/services/group_assistant_handler.py:108-220 | Every execution is a run of the protocol, whatever other workers do at its awaits, and its outcome is given exactly: by the enabled flag, trigger and context, then by whether its claim raised or was not the first, then by input, cooldown, generation, send and persistence; with one send or none, and a stored interaction if it succeeded. |
| Handlers.GroupAssistantHandler.ClaimCooldown | app/services/group_assistant_handler.py:278-288 | One call decides as the sequence of starts does, and a refusal is no start. |
| Handlers.StartsAreApart | app/services/group_assistant_handler.py:278-288 | Over any sequence of calls two starts of one key are at least the cooldown apart. |
| Handlers.RefusedExactly | app/services/group_assistant_handler.py:278-288 | A call is refused if and only if the last start of its key is less than a cooldown ago. |
| Handlers.SummaryCommandHandler.Begin | app/services/summary_command.py:156-167 | A summary begins unless its group is marked or cooling down, and then it is marked and its start remembered. |
| Handlers.SummaryCommandHandler.Handle | app/services/summary_command.py:107-227 | The same for summaries, with the group's configuration, a summary in progress and the group's cooldown; they are persisted before they are sent. |
| Handlers.SummaryCommandHandler.HandleStarted | app/services/summary_command.py:181-227 | Every path clears the group's mark, with other workers' steps in between. |
| Handlers.PingCommandHandler.Handle | app/services/ping_command.py:54-95 | The same for the ping command: a first claim is answered once. |
| Handlers.Shared.ClaimTrigger | app/storage/assistant_interaction_repository.py:36-68 | Only the first claim of a trigger wins; a call that raises may have claimed. |
| Handlers.ResumesWhereItStood | app/services/interaction_outbox_worker.py:215-244 | Whatever other workers, receipts and prunes do meanwhile, a worker goes on from where it stood. |
| Handlers.ContinuingOnlyAdds | app/storage/assistant_interaction_repository.py:36-68 | Whoever takes the steps, claims, interactions, deliveries and sends are only added. |
| OutboxWorker.TracesAreSafe | app/services/interaction_outbox_worker.py:215-334 | After any interleaved execution no trigger was sent to twice and completed rows were delivered. |
| OutboxWorker.InteractionOutboxWorker.TakeTurn | app/services/interaction_outbox_worker.py:215-244 | One turn of the loop extends the run and takes exactly the first pending row: it finds nothing only if none is pending, and a claim that raises, whether or not it was committed, leaves it idle. |
| OutboxWorker.InteractionOutboxWorker.RunClaimedRow | app/services/interaction_outbox_worker.py:254-334 | Exactly how a claimed row ends: sent back if its reload fails, failed without a message, waiting without a permit, completed if an interaction is stored, failed if expired, and otherwise by its handler, which delivers exactly under its own conditions; with other workers' steps at every await. |
| OutboxWorker.InteractionOutboxWorker.RecordOutcome | app/services/interaction_outbox_worker.py:282-326 | The repository call of each outcome is the recording step, after which the permit is back; one that raises leaves the row running. |
| OutboxWorker.RecordedRowsExactly | app/storage/interaction_outbox_repository.py:152-221 | The row gets the status of the outcome if it is running, and no other row changes. |
| Conversation.QueryIsTheFirst | app/storage/message_repository.py:105-160 | Joins, ranks, order and limit select exactly the first entries that are their receipt's newest version in scope, pass the filters and are the newest such receipt of their message. |
| Conversation.TheFirstAreUnique | app/storage/message_repository.py:105-160 | There is only one such answer. |
| Conversation.ListedIsTheFirst | app/storage/message_repository.py:86-179 | The conversation query returns the first entries by time and id. |
| Conversation.ListedBeforeIsTheNewest | app/storage/message_repository.py:181-277 | The query before a trigger returns the newest entries, oldest first. |
| ConversationOutcome.ListedExactly | app/storage/message_repository.py:86-179 | In the columns of the stored entries: without a limit exactly the newest versions in parser scope that lie in the group and window and are the newest such receipt of their message, by time and id; with a limit the first of them. |
| ConversationOutcome.ListedBeforeExactlyBy | app/storage/message_repository.py:181-277 | The same for the entries before a trigger, by time, receipt and id; with a limit the last of them. |
| Conversation.TriggerReceiptIsListedExactly | app/storage/message_repository.py:181-277 | The receipt of the trigger is returned if and only if its newest representation lies in the group and strictly before the trigger's time, no passing receipt of its message is newer, and the limit reaches it. |
| Conversation.TriggerMessageIsListedExactly | app/storage/message_repository.py:181-277 | Some receipt of the trigger's message is returned if and only if the newest of its passing receipts is within the limit: never unless one passes the filter, and always then without a limit. |
| Conversation.ListedBeforeExactly | app/storage/message_repository.py:210-253 | An entry is returned if and only if it is selected and fewer than the limit of selected entries are newer. |
| Conversation.TriggerReceiptIsNeverListed | app/storage/message_repository.py:181-277 | With the time of its newest representation the trigger's own receipt is never listed. |
| Conversation.ReparsedTriggerIsListed | app/storage/message_repository.py:201-209 | A stored table in which the trigger's receipt is listed. |
| Conversation.TwinReceiptIsListed | app/storage/message_repository.py:201-209 | A stored table in which another receipt of the trigger's message at the same time is listed. |
| MessageStore.MessageRepository.Persist | app/storage/message_repository.py:24-61 | One call inserts the tree or returns the stored version, with every failure. |
| MessageStore.PersistReturnsTheMessage | app/storage/message_repository.py:24-61 | A first representation comes back as it went in and is read back later with its timestamp in UTC. |
| MessageStore.PersistAgainReturnsTheStored | app/storage/message_repository.py:24-61 | Persisting the same receipt and parser version again changes nothing and returns the stored message. |
| MessageStore.PersistKeepsTable | app/storage/models.py:78-104 | At most one entry per receipt and parser version. |
| MessageStore.PersistExactly | app/storage/message_repository.py:24-61 | Which of its outcomes a call has, what it returns, and that only storing a new version adds anything. |
| MessageStore.ParsedMessageIsPersisted | app/services/normalized_message_ingestion.py:31-53 | What the parser builds from a receipt is what the first persist returns. |
| MessageStore.MessageRepository.ListConversation | app/storage/message_repository.py:86-179 | The selected entries are decoded in order; the first that cannot be decoded ends the call. |
| MessageStore.MessageRepository.ListConversationBefore | app/storage/message_repository.py:181-277 | The newest-first rows are reversed in place and decoded. |
| MessageStore.DecodeAllExactly | app/storage/message_repository.py:172-179 | All rows decode in order, or the first that does not ends the call. |
| RawEvents.InsertIsIdempotent | app/storage/raw_event_repository.py:29-55 | Inserting keeps every key, adds at most one receipt, and returns the same one for the same payload ever after. |
| RawEvents.InsertExactly | app/storage/raw_event_repository.py:29-55 | A payload seen before gives its receipt; a new one gets a receipt with a new id that carries it as it came, after the others. |
| RawEvents.ChunkKeepsKeys | app/storage/raw_event_repository.py:124-182 | Every foreign key holds after each chunk, from any consistent database. |
| RawEvents.ChunkIs | app/storage/raw_event_repository.py:131-182 | Both statements of a chunk select the same receipts, although the second runs after the first deleted rows. |
| RawEvents.PruneDeletesExactlyTheSafe | app/storage/raw_event_repository.py:88-118 | Exactly the safe receipts and their terminal rows go; no message and no pending or running row loses its receipt. |
| RawEvents.PrunedExactly | app/storage/raw_event_repository.py:88-182 | Row by row, which receipts and outbox rows a prune deletes. |
| RawEvents.RawEventRepository.Insert | app/storage/raw_event_repository.py:29-55 | The new or the existing receipt. |
| RawEvents.RawEventRepository.PruneOlderThan | app/storage/raw_event_repository.py:88-185 | For every chunk size the loop ends with every key held and nothing safe left, also when other transactions run between the chunks; alone it leaves what deleting everything safe at once leaves, and returns the number of deleted receipts. |
| EventProcessor.ProcessKeepsKeys | app/services/qq_official_event_processor.py:88-171 | Every event keeps all unique keys and foreign keys of the three tables. |
| EventProcessor.DuplicateChangesNothing | app/services/qq_official_event_processor.py:88-171 | A duplicate that follows its event changes no table and names the same receipt and outbox row. |
| EventProcessor.LateDuplicateChangesNothing | app/services/qq_official_event_processor.py:88-171 | So does a duplicate after any number of other events and row transitions, once the event has its row. |
| EventProcessor.LateDuplicateExactly | app/services/qq_official_event_processor.py:88-171 | With prunes in between as well it names the same receipt, changes neither receipts nor messages, and adds one pending row exactly when the trigger's row is gone. |
| EventProcessor.HappensKeepsKeys | app/storage/models.py:78-104 | Events, both prunes and row transitions keep all unique keys and foreign keys. |
| EventProcessor.QQOfficialEventProcessor.ProcessEvent | app/services/qq_official_event_processor.py:88-171 | Raw receipt, normalized message and outbox row in sequence, stopping where the code stops. |
| EventOutcome.NewEventExactly | app/services/qq_official_event_processor.py:88-171 | A new event always leaves a receipt with its payload; if it parses to a storable message, that message is stored and reads back as it is; if that asks for an interaction of a group and message it names, its trigger has a row, pending and new unless there was one; nothing else is added. |
| Summary.ChunksCoverTheWindow | app/services/summary.py:248-277 | The chunks are all messages in order without overlap, none empty or too long, every prompt within the limit. |
| Summary.ChunkingSucceedsExactly | app/services/summary.py:257-277 | Splitting succeeds when every message fits alone, and only then if a longer window never has a shorter prompt. |
| Summary.ChunkingFailsExactly | app/services/summary.py:257-277 | Splitting fails if and only if some message is over the limit in every block that contains it. |
| Summary.MergeKeepsEveryItemOnce | app/services/summary.py:509-549 | Each merged list holds every item of every chunk once, in first-seen order. |
| Summary.MergingInGroupsIsTheSame | app/services/summary.py:509-537 | Merging merged groups gives the payload of merging all chunks at once, summaries included. |
| SummaryRun.SummaryCoversTheWindow | app/services/summary.py:167-246 | A returned summary counts every message, and every message was put to the provider exactly once, in order. |
| SummaryRun.CallsAreBounded | app/services/summary.py:167-246 | No request is over the limit, and a window reported too large caused none. |
| SummaryRun.RefusedExactly | app/services/summary.py:188-222 | A window is refused if and only if it has too many messages, or is long and one of its messages is over the limit in every block the splitting makes around it. |
| SummaryRun.RefusedExactlyWhenMonotone | app/services/summary.py:188-222 | When a longer window never has a shorter prompt, that is a message that does not fit alone. |
| SummaryOutcome.SummarySaysWhatWasAnswered | app/services/summary.py:167-417 | The payload, provider, model, finish reason and usage of every summary come from the provider's answers to this call's requests: the answer for the whole window, the answer that merges the chunks' answers, or their deterministic merge; usage is summed over all answers. |
| SummaryOutcome.FailureIsTheLastAnswer | app/services/summary.py:167-246 | A provider error or an invalid response is reported for the last request, which was not answered, was cut, or does not parse. |
| SummaryOutcome.NothingToSummarize | app/services/summary.py:193-199 | A window without messages is summarized without a request. |
| SummaryOutcome.MergedTextGrows | app/services/summary.py:509-537 | The merged text skips blank summaries and puts the others on lines of their own. |
| SummaryService.Service.Summarize | app/services/summary.py:167-246 | The service's calls and result are those of the summary function. |
| SummaryService.Service.ChunkPrompts | app/services/summary.py:248-277 | The recursive helper that appends to a list returns the prompts of the chunks, or refuses. |
| SummaryService.Service.Synthesize | app/services/summary.py:334-417 | One more call, or the deterministic merge when its prompt is too long. |
| SummaryService.SplitMessages | app/services/summary.py:489-506 | The slices of the loop are the split. |
| SummaryService.DedupStrings | app/services/summary.py:540-549 | The loop with its set of seen strings keeps first occurrences. |
| SummaryService.UnionPayloads | app/services/summary.py:509-537 | The merge with its set of seen action items. |
| Sequences.DistinctKeepsFirstOrder | app/services/summary.py:540-549 | Keeping first occurrences loses nothing, repeats nothing and keeps the order of first occurrence. |

## Left out

- Network clients, HTTP, WebSocket, authentication and configuration: a send, a completion and a fetch are
  calls that succeed or fail.
- Text: the mention token pattern is modelled; the renderer, prompts, display line patterns, URL parsing,
  redaction, joining a line with its description, and image decoding are opaque functions, as are `int`, `str`, `isoformat` and `fromisoformat`.
- `_reply_reference_key` is an opaque function of its three arguments.
- Sessions, locks and WAL: each repository call is one atomic step, and a call that raises may or may not
  have been committed where a protocol step says so.
- The race in which a unique constraint stops a second insert: its outcome is that of finding the row.
- A database that fails while an event is received: the code logs it and keeps what was stored so far.
- Columns no decision reads: `started_at`, `last_error`, statistics, logs and events.
- Object identity: enrichment returns the same object when nothing changed; the model says it returns an
  equal value.
- A text segment whose text is no string counts as empty for enrichment.
- Summary persistence, assistant answers, triggers and group configuration: their results are inputs of
  the handlers, and the kind of a message is assumed not to change between receipt and handling.
- `stop` and draining: a worker that is cancelled in the middle of a row is a crash of the process. A handler
  that raises counts as one that declines before its claim, and after its send as a persist that fails.
- The claim and interaction tables are sets in the class of what the workers share; their listing methods
  are left out.
- Row ids may be reused after a prune of the newest rows, so handler invocations are counted per row that
  is still there; claims, not row ids, carry the at-most-once argument.
- MessageCodec.NodeDecoder.DecodeItem: one method for the three kinds of rows, where the code has one each.
- `layered_context`, health, observability, offline capture and audit scripts.
