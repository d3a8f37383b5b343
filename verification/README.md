# Geniro: a Dafny model of its message, schema and draft logic

Five self-contained parts of the repository, modelled in Dafny 4.11 and proved against what
their comments, types and callers promise. Check everything with `dafny verify dfyconfig.toml`.

| part | modules |
|---|---|
| The sandbox bridge: line parser, start handshake, session, input queue, pending requests, question routing | `JsonLines`, `MessageQueue`, `HostRequests`, `Questions`, `Bridge`, `BridgeProofs`, `BridgeFraming`, `BridgeStream`, `BridgeInputs`, `BridgeReports`, `BridgeAnswers`, `BridgeProcess` |
| JSON Schema to Zod, against JSON Schema Validation draft-07 | `JsonSchemaToZod`, `SchemaFidelity`, `SchemaMeaning` |
| Thread messages: merge, streaming upsert, clear, and the store's reducer | `Messages`, `MessageMerge`, `ReasoningUpsert`, `ReasoningProofs`, `ThreadMessageStore`, `StoreProofs` |
| The graph editor's draft: canonical form, baseline, localStorage, reload | `CanonicalForm`, `CanonicalProofs`, `GraphDraft`, `GraphDraftProofs`, `GraphDraftReload` |
| `text[]` columns, and graph connection checks | `PgTextArray`, `PgRoundTrip`, `GraphValidation` |

`JsonValues`, `Text` and `Sorting` hold what they share. Code that updates state is a class or a
method with a loop, tied by its `ensures` to a function; the promises are lemmas about that
function. The bridge is a step system: each chunk on stdin, SDK message, pull of the input
iterator, tool call, heartbeat or end of stream is one atomic step, and theorems about it range
over every sequence of steps.

## Conventions

- A Dafny `char` is one UTF-16 code unit, and stdin is modelled after UTF-8 decoding. The
  handover from `start` to the session therefore assumes the `start` chunk ends on a character
  boundary.
- `JSON.parse` and `JSON.stringify` are function parameters. The line parser assumes of them a
  round trip over text without raw newlines (section 7 of RFC 8259) and without outer white
  space; the draft comparison assumes that equal texts mean equal values.
- JSON numbers are reals. Parsed objects are unordered maps; in the draft they are ordered
  field lists, because key order shows in the stringified state there.
- A `Map` keyed by message id is a list of messages in insertion order. `createdAt` carries the
  number its text parses to. Sorting is stable insertion; `Sorting.SortUnique` shows that any
  stable sort gives the same list.
- `localeCompare` is any total preorder on ids. `slug` and `makeHandleId` are any functions.
- Clocks, random suffixes and the SDK are inputs of the steps that use them. Texts of engine
  errors (`TypeError`) are placeholders.

## Where the code and its promises part

For each of these one lemma shows an input, or a run, on which it happens, and another says
exactly when it does.

- The converter's "never narrow" fails for integers beyond the safe range, because Zod's `int()`
  rejects them (`UnsafeIntegerIsRejected`): a value comes through every converted schema exactly
  when all its integers are safe (`FaithfulIffSafeIntegers`).
- The converter hands out a raw shape. Wrapped in the stripping `z.object`, as its own spec does,
  it drops top-level arguments the schema allows but does not list (`UnlistedArgumentIsStripped`);
  everything arrives exactly when the wrapper is loose or every argument is listed
  (`ShapeFaithful`). Which wrapper the SDK uses is not visible in the repository.
- A chunk can end the bridge without a terminal event (`TerminalEventCanBeMissing`), namely when
  it holds a frame whose `type` is an object that cannot be printed, or a `user_message` whose
  text is neither string nor array once the input queue is closed (`ThrowsExactly`,
  `ChunkLosesSessionExactly`, `ChunkLosesBootExactly`). Over a run nothing else but the end of
  stdin does (`OneTerminalEvent`).
- A `start` without options is answered by `fatal` (`StartWithoutOptions`, `StartNeedsOptions`).
- A line beyond ten million characters is read if it arrives in one chunk and lost if it does
  not (`OversizedLineDependsOnCut`, `TracksStreamIffWithinCap`).
- Redelivering a batch can take routing fields away again (`RedeliveryCanLoseRouting`); it is a
  no-op exactly when no message takes over routing it does not carry itself
  (`RedeliveryIsNoOpIffNothingTaken`).
- An empty reasoning chunk empties the text stored so far (`EmptyChunkEmptiesText`,
  `TextShrinksOnlyOnEmptyChunk`).
- Reopening the editor brings a deselected thread back (`ReloadRevivesClearedThread`): it restores
  every unsaved edit except a selected thread, or a name, that was cleared while the server has
  one (`ReloadRestoresEdit`).
- Pending messages made of content blocks count as duplicates as soon as they have equally many
  blocks (`DifferentBlocksAreDropped`, `PendingConflatedExactly`).
- No node reports an edge to a missing node (`DanglingEdgeIsSeenOnce`), so the two views of a
  graph agree exactly without such edges (`ViewsAgreeIffNoDangling`).
- A question whose text is `__proto__` is never recorded as answered (`PrototypeQuestionIsLost`,
  `RecordsLastAnswer`).

## Model

| member | source | states |
|---|---|---|
| JsonLines.JsonLineParser.Push | packages/claude-bridge/src/json-line-parser.ts:29-65 | One push keeps the unfinished line unless it is over the cap, returns the frames of the finished lines in order, and reports the oversized line and every non-JSON line |
| JsonLines.KeptIsOneLine | packages/claude-bridge/src/json-line-parser.ts:33-47 | After any push the buffer holds no newline and at most the cap |
| JsonLines.LostLineIsReported | packages/claude-bridge/src/json-line-parser.ts:36-47 | An unfinished line is dropped exactly when it is over the cap, and then a report quotes its first 200 characters |
| JsonLines.EveryLineCounts | packages/claude-bridge/src/json-line-parser.ts:48-63 | Every finished line that is not blank is a frame, or else a complaint that quotes it |
| JsonLines.ChunkInvariant | packages/claude-bridge/src/json-line-parser.ts:29-65 | However a stream within the cap is cut, the parser yields the frames of the stream and keeps its unfinished line |
| JsonLines.TracksStreamIffWithinCap | packages/claude-bridge/src/json-line-parser.ts:36-47 | The buffer tracks the stream after every chunk exactly when no unfinished line exceeds the cap |
| JsonLines.OversizedLineDependsOnCut | packages/claude-bridge/src/json-line-parser.ts:36-47 | A line over the cap is read when it arrives whole and lost when its newline comes later |
| JsonLines.PaddingIgnored | packages/claude-bridge/src/json-line-parser.ts:50-63 | White space around a line changes neither the frames nor the reports |
| JsonLines.FramesArrive | packages/claude-bridge/src/json-line-parser.ts:73-75 | Serialized frames of at most the cap, concatenated and cut anywhere, arrive as exactly those frames with nothing left over |
| MessageQueue.AsyncMessageQueue.Push | packages/claude-bridge/src/bridge.ts:75-87 | A closed queue refuses; an open one appends and wakes a parked consumer |
| MessageQueue.AsyncMessageQueue.Resume | packages/claude-bridge/src/bridge.ts:94-107 | The iterator from one suspension to the next: yields the oldest message, returns when closed and empty, parks otherwise |
| MessageQueue.NeverLosesWakeUp | packages/claude-bridge/src/bridge.ts:70-108 | In every interleaving a parked consumer nobody has woken has nothing pending and the queue is open |
| MessageQueue.DeliversInOrder | packages/claude-bridge/src/bridge.ts:70-108 | Yielded messages followed by pending ones are the pushes before the first close, in order |
| MessageQueue.DrainsAfterClose | packages/claude-bridge/src/bridge.ts:89-107 | After a close a consumer that keeps going gets everything accepted and then returns |
| HostRequests.PendingHostRequests.Create | packages/claude-bridge/src/geniro-mcp.ts:58-72 | Hands out the next id and makes it pending |
| HostRequests.PendingHostRequests.Resolve | packages/claude-bridge/src/geniro-mcp.ts:74-82 | Settles a pending id with the value and forgets it; reports an unknown id and changes nothing |
| HostRequests.PendingHostRequests.FailAll | packages/claude-bridge/src/geniro-mcp.ts:84-90 | Fails every pending request in creation order and leaves none pending |
| HostRequests.IdsDiffer | packages/claude-bridge/src/geniro-mcp.ts:59-61 | Ids of different counter values differ whatever their random suffixes |
| HostRequests.RunKeeps | packages/claude-bridge/src/geniro-mcp.ts:52-91 | Over any calls ids are distinct, each is pending or settled but not both, none is settled twice, and no settlement is revised |
| HostRequests.FirstResponseWins | packages/claude-bridge/src/geniro-mcp.ts:74-82 | The first value for a pending id is its outcome after any further calls, and a later response changes nothing |
| Questions.SanitizeFixesExactlyWellTyped | packages/claude-bridge/src/question-sanitizer.ts:14-33 | The sanitizer yields only known fields of the right types, and leaves alone exactly the lists that are already so |
| Questions.SanitizeTwice | packages/claude-bridge/src/question-sanitizer.ts:7-33 | Sanitizing what the other end sanitized changes nothing |
| Questions.SanitizedQuestionKeeps | packages/claude-bridge/src/question-sanitizer.ts:18-32 | Of a question survive exactly its known fields, each only with the right type, and its options sanitized |
| Questions.SanitizedOptionKeeps | packages/claude-bridge/src/question-sanitizer.ts:26-31 | Of an option survive exactly label and description, each only as a string |
| Questions.SanitizeOneMore | packages/claude-bridge/src/question-sanitizer.ts:14-18 | Questions and options are sanitized one by one in order, skipping what is not an object |
| Questions.CanUseToolContinues | packages/claude-bridge/src/geniro-mcp.ts:181-205 | The hook denies on failure, denial or no answers, and otherwise allows with the record its loop builds |
| Questions.RecordsLastAnswer | packages/claude-bridge/src/geniro-mcp.ts:198-204 | A text is recorded exactly if some question with it has an answer, and the last such answer counts |
| Questions.AnswersByIndex | packages/claude-bridge/src/bridge.ts:177-187 | For one request and one response frame: the i-th question gets the i-th entry if that is a string, and no answer if it is a hole |
| Questions.PrototypeQuestionIsLost | packages/claude-bridge/src/geniro-mcp.ts:198-204 | An answered question named `__proto__` leaves no trace |
| BridgeProofs.EveryTrace | packages/claude-bridge/src/bridge.ts:223-375 | Every event trace is ready, then other events, then at most one terminal event, present exactly when main has settled, and nothing after it |
| BridgeStream.OutcomeIsTruthful | packages/claude-bridge/src/bridge.ts:285-315 | Done implies no interrupt or shutdown was handled, aborted implies one was, and both name the last session id the SDK sent |
| BridgeReports.EndIsReported | packages/claude-bridge/src/bridge.ts:299-309 | From every reachable running state the end of the SDK stream adds exactly done and an SDK throw exactly fatal with that error, or either exactly aborted if an interrupt or shutdown was handled; done and aborted name the session id the SDK last named |
| BridgeReports.StepsAreReported | packages/claude-bridge/src/bridge.ts:223-297 | Every other step of a running session adds exactly the event of what it brought, and a new request waits under the id announced |
| BridgeReports.MessagesAreForwarded | packages/claude-bridge/src/bridge.ts:285-290 | Over every run the host gets exactly the SDK messages that arrive while the session runs, in order |
| BridgeReports.ResultClosesInput | packages/claude-bridge/src/bridge.ts:292-296 | The result of the turn closes the SDK's input, and no other SDK message does |
| BridgeReports.SessionComesFromStart | packages/claude-bridge/src/bridge.ts:110-122 | A launched session runs with the options of the first start frame of the stream, and their prompt is the SDK's first input |
| BridgeReports.StopRefusesStart | packages/claude-bridge/src/bridge.ts:351-356 | An interrupt or shutdown ahead of any start is answered by fatal naming it, and launches nothing |
| BridgeReports.ReplayFailureIsReported | packages/claude-bridge/src/bridge.ts:205-217 | A replayed frame that throws is answered by one fatal and launches nothing |
| BridgeProofs.EveryState | packages/claude-bridge/src/bridge.ts:110-316 | In every reachable state: aborted and queue closing match what was handled, inputs are in order, no wake-up is lost, request ids are those emitted |
| BridgeAnswers.EveryRequestSettles | packages/claude-bridge/src/bridge.ts:310-315 | Once a session has ended every request it emitted is settled, and none twice |
| BridgeInputs.InputsArriveInOrder | packages/claude-bridge/src/bridge.ts:143-157 | Over every run the SDK is fed the prompt and then exactly the user messages handled before the first stop or result closed the queue, in order |
| BridgeAnswers.EveryRequestWasMade | packages/claude-bridge/src/geniro-mcp.ts:108-117 | Every request event of a run was made by one step, with the next id and the sanitized questions or the arguments of that step |
| BridgeAnswers.CallOutcome | packages/claude-bridge/src/bridge.ts:158-171 | Over any run a tool call has exactly one outcome: the first response frame for its id or the first stop behind it, else failure with the session, else none yet |
| BridgeAnswers.QuestionOutcome | packages/claude-bridge/src/bridge.ts:172-190 | The same for a question, and no other question carries its id |
| BridgeAnswers.AnswersStayAligned | packages/claude-bridge/src/geniro-mcp.ts:178-205 | Over any run: when the first frame that settles a question allows, its only outcome records for the i-th emitted question the i-th entry if that is a string and no answer if it is not |
| BridgeAnswers.ResponseAllowsExactly | packages/claude-bridge/src/geniro-mcp.ts:188-197 | A response allows exactly when it does not deny and brings a list of answers that is not empty; otherwise the hook denies as unanswered |
| BridgeAnswers.CallShowsFirstFrame | packages/claude-bridge/src/geniro-mcp.ts:102-143 | Over any run the model sees of a tool call what the first frame that settles it says: its error, its result, or that the session was aborted |
| BridgeAnswers.CallFailsWithSession | packages/claude-bridge/src/geniro-mcp.ts:118-132 | A call nothing settled before the session ended is shown as failed with the session |
| BridgeAnswers.LostQuestionIsDenied | packages/claude-bridge/src/geniro-mcp.ts:180-187 | Over any run a question stopped by an interrupt or shutdown, or left over at the end, is denied as undelivered |
| BridgeAnswers.SampleAnswered | packages/claude-bridge/src/geniro-mcp.ts:178-205 | A concrete run in which a question is asked and answered so |
| BridgeAnswers.ToolResultFromFrame | packages/claude-bridge/src/geniro-mcp.ts:118-143 | The model sees the error text of a response frame as an error, else its result text |
| BridgeAnswers.EmittedQuestionsAreSanitized | packages/claude-bridge/src/geniro-mcp.ts:178-180 | Over every run each emitted question list is one the host's sanitizer leaves alone |
| BridgeStream.HandlesTheStream | packages/claude-bridge/src/bridge.ts:196-217 | Over every run and cut within the cap a running session has handled exactly the frames behind the first start, in order, across both parsers |
| BridgeStream.LaunchesIffStartFirst | packages/claude-bridge/src/bridge.ts:331-361 | A session is launched only behind a usable start that no interrupt or shutdown precedes, and always so for well-formed frames while stdin is open |
| BridgeStream.ChunkLaunchesExactly | packages/claude-bridge/src/bridge.ts:332-365 | A chunk launches a session exactly when a usable start comes first in it and no handler throws on the way |
| BridgeStream.OneTerminalEvent | packages/claude-bridge/src/bridge.ts:299-375 | A process that is gone has sent exactly one terminal event, as its last, exactly when no chunk crashed it and stdin did not end first |
| BridgeStream.WellFormedStreamEndsWell | packages/claude-bridge/src/bridge.ts:299-375 | In particular when every frame of the stream is well formed and stdin stays open |
| BridgeFraming.ThrowsExactly | packages/claude-bridge/src/bridge.ts:132-202 | A batch throws exactly when it holds an unprintable type, or an unsliceable text once the queue is closed; otherwise every frame is handled |
| BridgeStream.ChunkLosesSessionExactly | packages/claude-bridge/src/bridge.ts:197-202 | A chunk takes a running session down, without any event, exactly when one of its frames throws |
| BridgeStream.ChunkLosesBootExactly | packages/claude-bridge/src/bridge.ts:332-359 | A chunk takes the handshake down, without any event, exactly when an unprintable type comes before its first start or stop |
| BridgeStream.StartNeedsOptions | packages/claude-bridge/src/bridge.ts:331-375 | A start without usable options, coming first, is answered by fatal and launches nothing |
| BridgeStream.StartWithoutOptions | packages/claude-bridge/src/bridge.ts:331-375 | A concrete such run |
| BridgeStream.TerminalEventCanBeMissing | packages/claude-bridge/src/bridge.ts:143-157 | A concrete run that ends with no terminal event |
| BridgeProcess.SessionProcess.HandleCommand | packages/claude-bridge/src/bridge.ts:132-194 | The command handler does what the step system's handler does, including whether it throws |
| BridgeProcess.SessionProcess.OnStdin | packages/claude-bridge/src/bridge.ts:197-202 | The stdin listener realises the chunk step |
| BridgeProcess.SessionProcess.Replay | packages/claude-bridge/src/bridge.ts:205-217 | Replaying the carried frames and seeding the second parser realises the launch |
| BridgeProcess.SessionProcess.OnSdkMessage | packages/claude-bridge/src/bridge.ts:285-297 | An SDK message is forwarded, its session id remembered, and a result closes the input |
| BridgeProcess.SessionProcess.OnSdkEnd | packages/claude-bridge/src/bridge.ts:299-315 | The end of the SDK stream sends the terminal event and fails what is pending |
| BridgeProcess.OnBootData | packages/claude-bridge/src/bridge.ts:332-359 | The handshake listener stops at the first decisive frame and hands on what follows it |
| JsonSchemaToZod.JsonSchemaToZodShape | packages/claude-bridge/src/json-schema-to-zod.ts:120-137 | The loop over the properties builds the shape, optional unless required |
| SchemaFidelity.NodeKeepsKeys | packages/claude-bridge/src/json-schema-to-zod.ts:68-72 | No converted type strips a key at any depth |
| SchemaFidelity.ParseKeeps | packages/claude-bridge/src/json-schema-to-zod.ts:68-72 | A type without stripping objects returns every accepted value unchanged |
| SchemaFidelity.NeverNarrows | packages/claude-bridge/src/json-schema-to-zod.ts:26-113 | A value with safe integers that a schema node accepts is accepted by the converted type |
| SchemaFidelity.ShapeFaithful | packages/claude-bridge/src/json-schema-to-zod.ts:115-137 | Whatever object type the raw shape is wrapped in, arguments the tool schema accepts are accepted and every listed one arrives as given; all arrive exactly when the wrapper is loose or all are listed |
| SchemaFidelity.UnlistedArgumentIsStripped | packages/claude-bridge/src/json-schema-to-zod.spec.ts:21-30 | Under the stripping wrapper an allowed but unlisted argument is lost |
| SchemaFidelity.ExactOnSupported | packages/claude-bridge/src/json-schema-to-zod.ts:1-11 | On schemas made of understood constructs the converted type accepts exactly the valid values |
| SchemaMeaning.ConvertedAdmits | packages/claude-bridge/src/json-schema-to-zod.ts:26-113 | For every schema and value, what the converted type accepts, said of the schema alone: the deciding keyword, the listed values, the variants, the types with their items and properties |
| SchemaMeaning.ConvertedAdmitsMissing | packages/claude-bridge/src/json-schema-to-zod.ts:130-134 | For every schema, when even a required property of it may be missing |
| SchemaMeaning.DescriptionIsOnTop | packages/claude-bridge/src/json-schema-to-zod.ts:20-24 | A node with a string description becomes exactly the type it has without it, with that text on top; any other description plays no part |
| SchemaMeaning.DescriptionSurvives | packages/claude-bridge/src/json-schema-to-zod.ts:20-24 | The text a converted type carries is exactly its node's description, or that of its only variant where it has none |
| SchemaMeaning.PropertiesAreDescribed | packages/claude-bridge/src/json-schema-to-zod.ts:120-137 | Every property is advertised with exactly its description, optional exactly when it is not required |
| SchemaFidelity.FaithfulIffSafeIntegers | packages/claude-bridge/src/json-schema-to-zod.ts:60-61 | A value comes unchanged through every type converted from a schema that accepts it exactly when all its integers are safe |
| SchemaFidelity.UnsafeIntegerIsRejected | packages/claude-bridge/src/json-schema-to-zod.ts:60-61 | The first integer beyond the safe range, valid and rejected |
| Messages.SortMessagesChronologically | apps/web/src/utils/threadMessages.ts:31-44 | Decorating with time and index, sorting and undecorating is the stable sort by time |
| Messages.ContentForms | apps/web/src/hooks/useThreadMessageStore.ts:17-35 | A text counts the same plain, as the only block of a list and as the content of an object: trimmed, or as nothing when blank |
| Messages.RunIdIs | apps/web/src/utils/threadMessages.ts:169-181 | A run id is the first of three kwargs that is set, if it is a text, an empty one counting as none |
| Messages.ReasoningIdIs | apps/web/src/utils/threadMessages.ts:149-167 | A reasoning message is known by its own id, else by the first of two kwargs that is set, an empty one counting as none |
| MessageMerge.MergeMessagesReplacingStreaming | apps/web/src/utils/threadMessages.ts:267-428 | The merge as written computes the specified merge |
| MessageMerge.MergeContents | apps/web/src/utils/threadMessages.ts:348-428 | The result has each id once, in order of time: every incoming id with its last version, every other id with the last previous message nothing replaces |
| MessageMerge.MergeConserves | apps/web/src/utils/threadMessages.ts:317-383 | Every previous message that is neither a matched streaming nor a matched optimistic one survives, every incoming id arrives, nothing else appears |
| MessageMerge.MergeDropsExactly | apps/web/src/utils/threadMessages.ts:317-383 | A previous message whose id the batch does not bring is dropped exactly when the batch holds reasoning with its reasoning id or run id while it streams, or a real human message with its content while it is optimistic |
| MessageMerge.OthersArriveAsTheyAre | apps/web/src/utils/threadMessages.ts:388-415 | An incoming message that takes over no routing is stored, in its last version, as it is |
| MessageMerge.RoutingIsCarriedForward | apps/web/src/utils/threadMessages.ts:385-425 | In the merged list an untagged reasoning message carries the tool-call id, source node and set flags of the last streaming entry with its reasoning id, else with its run id, and its own fields otherwise |
| MessageMerge.RedeliveryIsNoOpIffNothingTaken | apps/web/src/utils/threadMessages.ts:267-428 | Merging a batch of persisted messages again is a no-op exactly when no untagged reasoning message in it takes over, from the entry found by reasoning id or else run id, a routing field it lacks or contradicts |
| MessageMerge.RedeliveryCanLoseRouting | apps/web/src/utils/threadMessages.ts:385-425 | A batch whose second delivery changes the list |
| MessageMerge.TaggedRedeliveryIsNoOp | apps/web/src/utils/threadMessages.ts:394-400 | In particular when all its reasoning messages carry a tool-call id |
| ReasoningUpsert.UpsertReasoningEntries | apps/web/src/utils/threadMessages.ts:565-685 | The upsert as written, with its change flags and three ways out, computes the specified upsert |
| ReasoningUpsert.RebuiltStreams | apps/web/src/utils/threadMessages.ts:441-549 | A rebuilt message streams under the entry's id and keeps the creation time of what it replaces |
| ReasoningProofs.RebuiltRouting | apps/web/src/utils/threadMessages.ts:497-533 | Tool-call id, source node id and the communication flags come from the chunk, else from the context, else from the message replaced |
| ReasoningProofs.RebuiltRun | apps/web/src/utils/threadMessages.ts:479-493 | The run is the context's, else the chunk's, else that of the message replaced, and an empty text blocks what comes after it |
| ReasoningProofs.RebuiltPlace | apps/web/src/utils/threadMessages.ts:455-479 | Thread, node, outer thread and times of a rebuilt message come from the context, the chunk, the message replaced or a default, in that order, and a message replaced keeps its creation time |
| ReasoningProofs.RebuiltMarks | apps/web/src/utils/threadMessages.ts:474-497 | A rebuilt message is marked with its reasoning id, the streaming flag and a time stamp, and inherits every other field that does not route |
| ReasoningProofs.InPlaceNeedsNoSort | apps/web/src/utils/threadMessages.ts:676-684 | Without new entries the in-place result is the list a full sort of the map would give |
| ReasoningProofs.UpsertReplacesRun | apps/web/src/utils/threadMessages.ts:577-602 | After an upsert a streaming message of the run is one the entries mention, every unflagged message is unchanged, every entry has its message |
| ReasoningProofs.UpsertDropsExactly | apps/web/src/utils/threadMessages.ts:577-602 | An upsert takes away, of the messages its entries do not mention, exactly the streaming reasoning of its own non-empty run |
| ReasoningProofs.UpsertAccumulatesText | apps/web/src/utils/threadMessages.ts:622-647 | An upsert folds its chunks into the text of a streaming message and keeps its creation time |
| ReasoningProofs.TextShrinksOnlyOnEmptyChunk | apps/web/src/utils/threadMessages.ts:636-647 | Stored text shrinks exactly when an empty chunk meets non-empty text, and a chunk extending the text replaces it |
| ReasoningProofs.TextOverRun | apps/web/src/utils/threadMessages.ts:622-647 | Over any run of merges, upserts and clears that does not take it away, a streaming message shows all its chunks folded in order into what was stored |
| ReasoningProofs.ShownTextNeverShrinks | apps/web/src/utils/threadMessages.ts:629-647 | Over such a run without empty chunks the text never gets shorter |
| ReasoningProofs.LastSnapshotIsShown | apps/web/src/utils/threadMessages.ts:629-647 | Over such a run of growing snapshots the last one is what is shown |
| ReasoningProofs.EmptyChunkEmptiesText | apps/web/src/utils/threadMessages.ts:629-647 | One empty chunk loses whatever was stored |
| ReasoningProofs.ClearRemovesContext | apps/web/src/utils/threadMessages.ts:687-723 | A clear removes exactly the streaming reasoning that counts to the target thread, or without one to the selected thread, and to the given runs if any are given |
| ReasoningProofs.ThreadStaysOrdered | apps/web/src/utils/threadMessages.ts:267-723 | Over every run of merges, upserts and clears ids stay unique and the list chronological, also on branches that skip sorting |
| ThreadMessageStore.ReduceMessages | apps/web/src/hooks/useThreadMessageStore.ts:58-208 | The reducer's fast path and its passes compute the specified reduction |
| ThreadMessageStore.ThreadMessageStore.UpdateMessages | apps/web/src/hooks/useThreadMessageStore.ts:46-220 | The scope updated holds the reduction of the updater's result; every other thread and scope is as before |
| ThreadMessageStore.ThreadMessageStore.UpdatePendingMessages | apps/web/src/hooks/useThreadMessageStore.ts:222-255 | The scope updated holds the first pending message per key; every other scope is as before |
| ThreadMessageStore.FirstPendingIsFirst | apps/web/src/hooks/useThreadMessageStore.ts:234-243 | Each pending key is shown exactly once, by the first message with it |
| ThreadMessageStore.PendingConflatedExactly | apps/web/src/hooks/useThreadMessageStore.ts:234-243 | Two pending messages count as one exactly when the roles agree and the texts are equal, the block lists equally long, or the text spells out as many objects as the list has |
| ThreadMessageStore.DifferentBlocksAreDropped | apps/web/src/hooks/useThreadMessageStore.ts:234-243 | Two different one-block messages of which only the first is kept |
| StoreProofs.FirstByIdUnique | apps/web/src/hooks/useThreadMessageStore.ts:65-73 | The fast path shows each id once, as its first message |
| StoreProofs.ReducedIsClean | apps/web/src/hooks/useThreadMessageStore.ts:91-208 | On the optimistic path: unique ids, chronological, no two human messages with one content, no optimistic message whose content a real one carries |
| StoreProofs.RealContentSurvivesOnce | apps/web/src/hooks/useThreadMessageStore.ts:110-150 | With distinct ids coming in, every content some real human message carries is shown by exactly one real message |
| StoreProofs.RealTakesItsPlace | apps/web/src/hooks/useThreadMessageStore.ts:130-142 | The first real message with a content is shown unchanged if no optimistic one has it, and else with its own id, thread, node and body at the creation time of the first optimistic one, whose update time fills in for an empty one |
| StoreProofs.OptimisticWaits | apps/web/src/hooks/useThreadMessageStore.ts:91-110 | A content no real message carries yet is shown by the earliest optimistic message that does |
| StoreProofs.OthersStay | apps/web/src/hooks/useThreadMessageStore.ts:110-150 | Messages that are not human, or say nothing, stay as they are |
| StoreProofs.NothingIsMadeUp | apps/web/src/hooks/useThreadMessageStore.ts:58-208 | Whatever is shown came in, or stands for a real and an optimistic message of one content |
| StoreProofs.ReduceTwice | apps/web/src/hooks/useThreadMessageStore.ts:58-208 | Reducing twice is reducing once, on either path |
| CanonicalForm.DeepSortKeys | apps/web/src/hooks/useGraphDraftState.ts:77-101 | Sorting the keys first and filling the object in a loop computes the canonical form |
| CanonicalProofs.CanonicalIffSame | apps/web/src/hooks/useGraphDraftState.ts:73-101 | Two values have equal images exactly when they agree up to key order and absent values, array nulls included |
| CanonicalProofs.CanonicalTwice | apps/web/src/hooks/useGraphDraftState.ts:77-101 | Applying it twice changes nothing |
| CanonicalProofs.KeysAreSorted | apps/web/src/hooks/useGraphDraftState.ts:85-97 | The keys of the canonical form come sorted: array indices in numeric order, then names by code units |
| GraphDraft.GraphDraftHook.constructor | apps/web/src/hooks/useGraphDraftState.ts:197-228 | Mounting overlays a stored draft on the server state, with the separately saved viewport |
| GraphDraft.GraphDraftHook.UpdateServerBaseline | apps/web/src/hooks/useGraphDraftState.ts:236-254 | A new baseline replaces the draft if none is stored and backfills missing fields otherwise |
| GraphDraft.GraphDraftHook.PersistDraft | apps/web/src/hooks/useGraphDraftState.ts:257-291 | Stores or clears the draft by the comparison with the baseline, saves the viewport, touches no other key |
| GraphDraft.GraphDraftHook.ApplyDraft | apps/web/src/hooks/useGraphDraftState.ts:296-305 | An edit persists and becomes the draft |
| GraphDraft.GraphDraftHook.ClearAllChanges | apps/web/src/hooks/useGraphDraftState.ts:465-469 | Clearing removes the stored draft and returns to the baseline |
| GraphDraftProofs.NormalizeTwice | apps/web/src/hooks/useGraphDraftState.ts:107-153 | normalizeState is idempotent for every collation of ids |
| GraphDraftProofs.MountIsSafe | apps/web/src/hooks/useGraphDraftState.ts:197-228 | A freshly mounted editor has unsaved changes only if a draft is stored |
| GraphDraftProofs.MountShows | apps/web/src/hooks/useGraphDraftState.ts:210-228 | Mounting shows the stored graph at the viewport saved last, with missing properties from the server, and without a draft the server's state |
| GraphDraftProofs.NewBaselineKeepsEdits | apps/web/src/hooks/useGraphDraftState.ts:236-254 | With a stored draft a new server baseline leaves the shown graph and viewport as they are and fills in only missing properties; without one it shows the server's state |
| GraphDraftProofs.EditIsShown | apps/web/src/hooks/useGraphDraftState.ts:296-360 | Every edit shows exactly what it names, leaves the rest and the baseline alone, and stores the latest viewport |
| GraphDraftProofs.ConfiguredShows | apps/web/src/hooks/useGraphDraftState.ts:337-360 | A configured node shows the given label and configuration and is otherwise as before |
| GraphDraftProofs.NoUnsavedChangeIsLost | apps/web/src/hooks/useGraphDraftState.ts:236-305 | Over every run unsaved changes imply a stored draft, after an edit the two are equivalent, after a reset or clear there is neither |
| GraphDraftReload.EqualSnapshotsIffSameTies | apps/web/src/hooks/useGraphDraftState.ts:375-384 | Two states compare equal exactly when thread, name, nodes and edges are the same, in any order that keeps objects whose ids tie in place |
| GraphDraftReload.EqualSnapshotsIffSameContent | apps/web/src/hooks/useGraphDraftState.ts:375-384 | Where ids differ, order plays no part at all |
| GraphDraftReload.ConfigChangeIffNotSame | apps/web/src/hooks/useGraphDraftState.ts:122-129 | A configuration edit counts as a change exactly when the values differ beyond key order and absent keys |
| GraphDraftReload.NodeTextShows | apps/web/src/hooks/useGraphDraftState.ts:111-136 | The comparison sees every own property of a node except the editor's selection, drag and size state |
| GraphDraftReload.NodeDataShows | apps/web/src/hooks/useGraphDraftState.ts:122-129 | Of a node's data the comparison sees exactly label, template and the canonical configuration |
| GraphDraftReload.EdgeTextShows | apps/web/src/hooks/useGraphDraftState.ts:137-146 | Of an edge the comparison sees exactly id, ends, handles and a label that is a text |
| GraphDraftReload.SerializedCanonical | apps/web/src/hooks/useGraphDraftState.ts:77-101 | Stringifying and sorting keys commute |
| GraphDraftReload.ReloadRestoresEdit | apps/web/src/hooks/useGraphDraftState.ts:210-228 | Reopening after an edit restores the edited graph exactly unless a thread or name was cleared that the server has |
| GraphDraftReload.ReloadRevivesClearedThread | apps/web/src/hooks/useGraphDraftState.ts:210-228 | A run in which a deselected thread comes back |
| PgTextArray.ConvertToDatabaseValue | packages/mikroorm/src/pg-text-array.type.ts:23-45 | null stays null, a list becomes its printed literal |
| PgRoundTrip.PlainIsBare | packages/mikroorm/src/pg-text-array.type.ts:30-44 | A word of plain characters that does not spell NULL is printed as it is |
| PgRoundTrip.AmbiguousIsQuoted | packages/mikroorm/src/pg-text-array.type.ts:31-39 | The empty text, any spelling of NULL, and texts with a delimiter or white space are quoted |
| PgTextArray.ParsePgArrayLiteral | packages/mikroorm/src/pg-text-array.type.ts:82-127 | The cursor loop ends on every text and returns the specified elements |
| PgTextArray.ConvertToJSValue | packages/mikroorm/src/pg-text-array.type.ts:47-61 | null stays null, a list passes through, a text is parsed |
| PgRoundTrip.EscapesAgree | packages/mikroorm/src/pg-text-array.type.ts:37-38 | Escaping backslashes and then quotes is the one-pass escape |
| PgRoundTrip.OwnRoundTrip | packages/mikroorm/src/pg-text-array.type.ts:30-44 | Every list of strings, printed, reads back to itself |
| PgRoundTrip.PgRoundTrip | packages/mikroorm/src/pg-text-array.type.ts:13-15 | A reader after section 8.15.6 of the PostgreSQL documentation gets every printed list back with no NULL in it |
| PgRoundTrip.ReadsServerOutput | packages/mikroorm/src/pg-text-array.type.ts:75-81 | The fallback reader understands what PostgreSQL prints, NULL becoming the word |
| GraphValidation.ConnectionValidIff | apps/web/src/services/GraphValidationService.ts:244-362 | A connection is valid exactly when both templates exist and each side's rules, by handle or any, allow the other |
| GraphValidation.ConnectionBlames | apps/web/src/services/GraphValidationService.ts:244-362 | The exact list of errors of a connection, each with the node it blames and the condition under which it is reported |
| GraphValidation.ValidateGraph | apps/web/src/services/GraphValidationService.ts:367-406 | The loop over the edges collects the specified errors |
| GraphValidation.GraphErrorsInOrder | apps/web/src/services/GraphValidationService.ts:367-406 | Errors come edge by edge, in the order of the edges |
| GraphValidation.GetNodeValidationErrors | apps/web/src/services/GraphValidationService.ts:602-643 | The connection part of a node's errors, followed by the other checks |
| GraphValidation.GraphErrorsSplitByNode | apps/web/src/services/GraphValidationService.ts:602-643 | The whole-graph errors are the nodes' errors, each counted once even for self-loops, and those of dangling edges |
| GraphValidation.ViewsAgreeIffNoDangling | apps/web/src/services/GraphValidationService.ts:376-387 | The two views agree as multisets exactly without dangling edges |
| GraphValidation.DanglingEdgeIsSeenOnce | apps/web/src/services/GraphValidationService.ts:376-387 | One edge to nowhere, reported by the graph and by no node |
| GraphValidation.ValidIffNoNodeReports | apps/web/src/services/GraphValidationService.ts:367-406 | The graph is valid exactly when no edge dangles and no node reports a connection error |

## Left out

- The Claude SDK, process streams, timers and random suffixes: they appear only as steps and their inputs.
- `StringDecoder`: the model starts at decoded characters.
- The options passed to the SDK query and the MCP server configuration: no logic beyond optional fields.
- An array-valued `text` counts as sliceable when its first 200 elements print; other exotic conversions are not modelled.
- `$ref` in schemas, and properties named `__proto__`: Zod's treatment of the latter is not visible in the repository.
- JsonLines.ChunkInvariant: assumes the cap is respected; beyond it the cut matters, as `OversizedLineDependsOnCut` shows.
- `extractReasoningEntries` and `narrowReasoningContainer`: recursive field access without an invariant of their own.
- React scheduling, refs, effects and memoisation: reducers and callbacks are atomic.
- Failing or concurrent writes to localStorage, and the pending-revision snapshots kept there.
- `hasStructuralChanges`, `hasPositionChanges` and `nodeIdsWithChanges`: views over the same normal form.
- GraphValidation.GetNodeValidationErrors: the required-connection, configuration, secret and OAuth checks of a node are a parameter, errors of other types.
