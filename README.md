# wa-bot core, modelled in Dafny

This project models the core of a WhatsApp bot that answers questions from a
knowledge base. It covers:

- `index.js`: the event-handler registry. It parses the HANDLER_BLACKLIST and
  HANDLER_WHITELIST lists, loads handler files in directory order, awaits a
  handler's `init` before registering it, and fans every socket event out to
  each registered callback in order.
- `handlers/messages.js`: the `messages.upsert` dispatcher. It admits message
  handlers through the same lists, sorts them by descending priority with a
  stable sort, and offers each qualifying message to the handlers until one
  reports it handled.
- The two message handlers:
  - `echo.js` replies with the message's text.
  - `llm.js` queries the knowledge base, asks the language model, and falls
    back to the article itself. Its footer comes from the article's metadata.
    Its `init` is guarded by two module flags.
- `session.js`: the chat-session manager. It builds session and history keys,
  decides whether the bot is addressed, and writes the session marker and the
  history list. It uses `memory.js`, the in-memory Redis stand-in with lazy
  expiry.
- `kb/engine.js`: the knowledge-base engine. It filters search results by a
  strict score threshold, indexes one point per key of every document that
  has `keys`, and re-creates the collection on `init(true)`.
- `kb/affine.js`: the AFFiNE client. It covers blob and document URLs, the
  empty-update test, Markdown rendering of the block tree, `parseDocument`,
  cookie stripping at login, and property definitions and values. It also
  covers the metadata merge of `getDocument`.
- `llm/prompt.js`: the prompt builder. It covers the system parts, the
  ChatML message list, and the Qwen and plain-text prompts.
- `webhooks/message.js`: the send-message webhook.

Each source file is one module:

| module | source file |
|---|---|
| `Js` | JavaScript values, truthiness, `trim`, `split`/`join` and the name-list parsing shared by the loaders |
| `Wa` | message shapes |
| `Plugins` | file names and the list rules |
| `Memory` | `memory.js` |
| `Session` | `session.js` |
| `Dispatch` | `handlers/messages.js` |
| `Echo` | `handlers/messages/echo.js` |
| `Llm` | `handlers/messages/llm.js` |
| `Engine` | `kb/engine.js` |
| `Affine` | `kb/affine.js` |
| `Prompt` | `llm/prompt.js` |
| `Webhook` | `webhooks/message.js` |
| `Registry` | `index.js` |

Objects whose fields the source updates are classes:

- `InMemoryRedis`
- `ChatSessionManager`
- `MessageDispatcher`
- `RagHandler`
- `KnowledgeBaseEngine`
- `AffineClient`
- `PromptBuilder`
- `HandlerRegistry`

Each method is tied by its `ensures` to a pure function of the old state and
the inputs. The promises of the source are lemmas about those functions.

The following are explicit inputs:

- clocks
- directory listings
- imported modules' exports
- search results
- document fetches
- the language model's answer

Two pieces of behaviour are modelled as the code has them.

- **The in-memory history always reads back empty.** `lRange(key, 0, -1)`
  slices up to index 0, so `getChatHistory` always yields an empty history
  from the in-memory store (`Session.ChatHistoryIsEmpty`).
- **A failing `init` in `llm.js` never clears `initializing`.** The `catch`
  block of `llm.js`'s `init` calls a `queueReply` that is not in scope. So a
  failing engine start rejects `init`, and `initializing` stays set
  (`Llm.RagHandler.Init`).

## Model

| member | source | states |
|---|---|---|
| Js.Or | src/handlers/messages.js:62 | `a \|\| b` on optional strings is truthy iff either is, and is `a` when `a` is truthy |
| Js.ToStr | src/handlers/messages/llm.js:67 | string conversion in a template: a string is itself, `undefined` and `null` print as their names |
| Js.TrimSpec | src/llm/prompt.js:5-6 | `trim` removes exactly the leading and trailing whitespace: the result is a slice of the input with no space at either end and only spaces outside it |
| Js.TrimIdempotent | src/llm/prompt.js:5-6 | trimming twice is trimming once |
| Js.JoinSplit | src/index.js:25-26 | joining the pieces of `split(sep)` with `sep` gives the string back |
| Js.SplitJoin | src/index.js:25-26 | splitting a join of separator-free pieces gives the pieces back |
| Js.ParseNameList | src/index.js:25-26 | `split(',').map(trim).filter(Boolean)` yields only non-empty, trimmed names without commas |
| Js.ParseJoinedNames | src/handlers/messages.js:14-15 | a list of clean names joined with commas parses back to the same list |
| Js.ParseEmpty | src/handlers/messages.js:11-15 | an unset list variable (empty string) gives the empty list |
| Js.IncludesSpec | src/session.js:39 | `includes` holds iff the pattern occurs at some position |
| Wa.TextOf | src/handlers/messages.js:62 | the text is the conversation when that is truthy, else the extended text; it is truthy iff one of them is |
| Plugins.FileNameStripsExtension | src/index.js:40 | `file.replace('.js', '')` turns `name.js` back into `name` for a name without a dot |
| Plugins.FileNameFirstOccurrence | src/index.js:40 | `replace` removes the first `.js`, not the extension: `a.json.js` becomes `aon.js` |
| Plugins.ListRule | src/index.js:42-57 | a blacklisted name is refused; with a non-empty whitelist an unlisted name is refused; `enabled === false` passes only when whitelisted; otherwise the file passes |
| Memory.ExpiredLater | src/memory.js:10-16 | once a key's deadline has passed it stays passed |
| Memory.Current | src/memory.js:10-21 | a key is visible iff it is stored and its deadline has not passed, and then its stored value is seen |
| Memory.Swept | src/memory.js:10-16 | `_checkExpiry` deletes the key from both maps exactly when it has expired, and otherwise changes nothing |
| Memory.ExistsAt | src/memory.js:18-21 | `exists` answers 1 iff the key is visible and 0 otherwise |
| Memory.SetExState | src/memory.js:23-26 | `setEx` adds the key to both maps and keeps every other key's value |
| Memory.ExpireState | src/memory.js:41-45 | `expire` never changes the values |
| Memory.SliceIndex | src/memory.js:28-32 | an `Array.prototype.slice` bound counts from the end when negative and is clamped to the list |
| Memory.SliceWithin | src/memory.js:28-32 | `slice(start, stop + 1)` within bounds is the inclusive range `start..stop` |
| Memory.SliceToMinusOne | src/memory.js:28-32 | `slice(0, -1 + 1)` is empty |
| Memory.SliceNegativeStart | src/memory.js:28-32 | a negative start takes the last elements |
| Memory.RangeOf | src/memory.js:28-32 | `lRange` of a missing key is the empty list |
| Memory.RangeZeroMinusOne | src/memory.js:28-32 | `lRange(key, 0, -1)` of any list is empty |
| Memory.ValidPreserved | src/memory.js:10-45 | every operation keeps the deadlines on stored keys only |
| Memory.SetExThenExists | src/memory.js:18-26 | after `setEx` the key exists until its deadline and not after it; a deadline of 0 never fires |
| Memory.SetExOverwrites | src/memory.js:23-26 | `setEx` replaces the value and the deadline of an existing key |
| Memory.ExpireOnlyDeadline | src/memory.js:41-45 | `expire` of a missing key does nothing; of a stored key it sets only that key's deadline |
| Memory.ExpireRevivesStaleKey | src/memory.js:41-45 | `expire` does not sweep, so a stale key that was never touched becomes visible again |
| Memory.NoDeadlineNeverExpires | src/memory.js:10-21 | a key without a deadline exists and is never swept |
| Memory.PushAppends | src/memory.js:34-39 | `rPush` on a visible list appends the value and keeps the deadline |
| Memory.PushStartsList | src/memory.js:34-39 | `rPush` on a missing or expired key starts a one-element list without a deadline |
| Memory.PushOntoStringFails | src/memory.js:34-39 | `rPush` onto a non-empty stored string throws |
| Memory.SweepKeepsLiveView | src/memory.js:10-16 | sweeping never changes what any key reads as |
| Memory.InMemoryRedis.constructor | src/memory.js:2-5 | both maps start empty |
| Memory.InMemoryRedis.CheckExpiry | src/memory.js:10-16 | the new state is the swept state |
| Memory.InMemoryRedis.Exists | src/memory.js:18-21 | answers the visibility of the key and sweeps it |
| Memory.InMemoryRedis.SetEx | src/memory.js:23-26 | the new state is `SetExState` of the old |
| Memory.InMemoryRedis.LRange | src/memory.js:28-32 | answers the inclusive slice of the visible value and sweeps the key |
| Memory.InMemoryRedis.RPush | src/memory.js:34-39 | appends as `PushState` says, or throws after sweeping |
| Memory.InMemoryRedis.Expire | src/memory.js:41-45 | the new state is `ExpireState` of the old |
| Session.SessionKey | src/session.js:30-34 | a session key starts with `chat-session:` and ends with `:` and the sender |
| Session.HistoryKey | src/session.js:67 | the history key differs from the session key and ends with `:history` |
| Session.SessionKeyInjective | src/session.js:30-34 | in the same conversation, different senders get different keys |
| Session.GroupKeyIsNotPrivateKey | src/session.js:30-34 | a group key never equals a private key, unless the group id starts with `private` |
| Session.ExtractMsg | src/session.js:36-44 | the text as the dispatcher reads it; the sender is the participant when present, else the chat; the group id is the chat iff the chat contains `@g.us` |
| Session.GroupIdIffGroupJid | src/session.js:39 | a group id is extracted exactly for `@g.us` chats |
| Session.PrivateIsAlwaysTalking | src/session.js:46-56 | a private chat always addresses the bot |
| Session.MentionIsTalking | src/session.js:46-56 | a mention of the bot always addresses it |
| Session.ColdGroupIsIgnored | src/session.js:46-56 | in a group, without a mention, the bot is addressed iff the session key is live |
| Session.AppendState | src/session.js:72-76 | when `rPush` throws, only the sweep of the history key happened |
| Session.TouchSessionEffect | src/session.js:58-64 | touching marks the session active with the TTL, appends one entry to the history and gives the history key the TTL |
| Session.HistoryKeepsAppendOrder | src/session.js:72-76 | successive appends to a fresh history store the entries in order, with the TTL as deadline |
| Session.ChatHistoryIsEmpty | src/session.js:66-70 | with the in-memory store `getChatHistory` reads `lRange(key, 0, -1)`, which is always empty |
| Session.AppendedHistoryReadsEmpty | src/session.js:66-76 | even right after appending entries, the history reads as empty |
| Session.ChatSessionManager.constructor | src/session.js:5-10 | keeps the bot id; the client is an empty in-memory store |
| Session.ChatSessionManager.IsTalkingToMe | src/session.js:46-56 | answers `TalkingToMe`; only the session key is swept, so no key reads differently |
| Session.ChatSessionManager.TouchSession | src/session.js:58-64 | the new store is `TouchState` of the old |
| Session.ChatSessionManager.GetChatHistory | src/session.js:66-70 | answers `ChatHistoryOf` of the old store and sweeps the history key |
| Session.ChatSessionManager.AppendHistory | src/session.js:72-76 | the new store is `AppendState` with the entry `{senderId, message, at: now}` |
| Dispatch.Admitted | src/handlers/messages.js:21-50 | at most one handler per file |
| Dispatch.AdmittedExactly | src/handlers/messages.js:21-50 | a handler is loaded iff its `.js` file passes the lists, is enabled or whitelisted and exports a function and a numeric priority; it carries that priority |
| Dispatch.LoadedRespectLists | src/handlers/messages.js:26-41 | no loaded handler is blacklisted, and with a whitelist every loaded handler is whitelisted |
| Dispatch.InsertMultiset | src/handlers/messages.js:53 | one insertion step adds exactly one handler |
| Dispatch.InsertSorted | src/handlers/messages.js:53 | one insertion step keeps the order descending |
| Dispatch.InsertWithPriority | src/handlers/messages.js:53 | one insertion step puts the handler after its equals |
| Dispatch.SortByPrioritySpec | src/handlers/messages.js:52-53 | the sort yields descending priorities, is a permutation, and keeps the file order among equal priorities |
| Dispatch.Invokes | src/handlers/messages.js:72-73 | one call of each handler in the order given |
| Dispatch.Chain | src/handlers/messages.js:72-75 | the handlers are called in order until one answers truthy, and no further |
| Dispatch.ChainStopsAt | src/handlers/messages.js:72-75 | the chain is exactly the handlers up to and including the first one that handles |
| Dispatch.Blocks | src/handlers/messages.js:61-76 | one block of effects per message, in message order |
| Dispatch.FlattenInOrder | src/handlers/messages.js:61 | effects of earlier messages come before those of later ones |
| Dispatch.TraceInUpsertOrder | src/handlers/messages.js:58-77 | a non-`notify` upsert does nothing, and the effects of a `notify` upsert follow message order |
| Dispatch.SkippedMessageUntouched | src/handlers/messages.js:62-65 | a message without text, from the bot itself or from a newsletter is neither marked read nor offered |
| Dispatch.QualifyingMessageEffects | src/handlers/messages.js:67-75 | a qualifying message is marked read, then offered to the chain, between the effects of earlier and later messages |
| Dispatch.CallsInPriorityOrder | src/handlers/messages.js:53-75 | with sorted handlers, the calls for a message come in non-increasing priority |
| Dispatch.MessageDispatcher.constructor | src/handlers/messages.js:9-15 | the lists are the parsed variables; no handler is loaded |
| Dispatch.MessageDispatcher.LoadMessageHandlers | src/handlers/messages.js:17-54 | the handler list becomes the stable sort of the old list plus the admitted handlers |
| Dispatch.MessageDispatcher.AdmitFiles | src/handlers/messages.js:23-50 | the loop collects exactly `Admitted` |
| Dispatch.MessageDispatcher.AdmitFile | src/handlers/messages.js:24-49 | one file contributes `LoadOne` |
| Dispatch.MessageDispatcher.HandleUpsert | src/handlers/messages.js:58-77 | the effects are `DispatchTrace` of the sorted handlers |
| Dispatch.MessageDispatcher.OfferToHandlers | src/handlers/messages.js:72-75 | the calls are `Chain` of the sorted handlers |
| Echo.EchoHandler | src/handlers/messages/echo.js:6-12 | returns true iff the message has text, and then queues exactly that text once; otherwise nothing |
| Echo.EchoRepliesWithText | src/handlers/messages/echo.js:7-10 | the reply is the conversation when non-empty, else the extended text |
| Echo.EchoHandlesDispatchedMessages | src/handlers/messages.js:62-65 | every message the dispatcher offers has text, so echo, given the `queueReply` it declares, handles it |
| Echo.EchoFirstEndsChain | src/handlers/messages.js:72-75 | with echo first, a qualifying message is marked read and offered to echo alone |
| Echo.EchoNeedsWhitelist | src/handlers/messages/echo.js:1-2 | echo, disabled by default, is admitted iff whitelisted and not blacklisted |
| Llm.NoTextDeclines | src/handlers/messages/llm.js:47 | without text the handler returns false and queues nothing |
| Llm.OneReplyPerText | src/handlers/messages/llm.js:46-86 | with text it queues one reply and returns true, unless reading the history throws after a query with hits; a failed query and an empty hit list get their fixed replies |
| Llm.ReplyFromBestHit | src/handlers/messages/llm.js:63-83 | only the best hit counts: the reply is the model's output, or the trimmed article on failure, followed by the footer |
| Llm.FooterParts | src/handlers/messages/llm.js:65-71 | the read-more part is first and present iff `public`; the request-form part is last when `request` is set; the footer is empty iff neither is |
| Llm.BuildFooter | src/handlers/messages/llm.js:65-71 | the two `+=` steps build `Footer` |
| Llm.RagHandler.constructor | src/handlers/messages/llm.js:15-16 | both flags start false |
| Llm.RagHandler.Init | src/handlers/messages/llm.js:17-30 | the engine starts only when neither flag is set; success sets `initialized`; failure rejects and leaves `initializing` set |
| Llm.RagHandler.Handle | src/handlers/messages/llm.js:46-86 | the outcome is `Answer` of the query result and the chat history; only a query with hits reads, and so sweeps, the history key |
| Engine.KeptAppend | src/kb/engine.js:78-84 | filtering distributes over concatenation, so hits keep search order |
| Engine.KeptExactly | src/kb/engine.js:78-79 | a result is kept iff its score is strictly above the threshold |
| Engine.ThresholdIsStrict | src/kb/engine.js:79 | a score equal to the threshold is dropped |
| Engine.QueryHitsSpec | src/kb/engine.js:69-86 | a successful query returns, in order, one fetched document per kept result, carrying that result's score |
| Engine.QueryFailureSticks | src/kb/engine.js:78-84 | once a document fetch throws, the query throws |
| Engine.QueryHitsFails | src/kb/engine.js:78-84 | the query throws iff the fetch of some kept result throws |
| Engine.Upserts | src/kb/engine.js:48-62 | one upsert per key, in key order, with the key and the document id as payload |
| Engine.KeyPointsSpec | src/kb/engine.js:48-62 | the points of a document are keyed by the name of document and key, one per key, each carrying its key and document |
| Engine.IndexDocPoints | src/kb/engine.js:44-65 | indexing one document adds exactly its points |
| Engine.IndexAllCount | src/kb/engine.js:42-67 | the count is the number of documents with truthy `keys` |
| Engine.IndexAllPoints | src/kb/engine.js:42-67 | the collection gains exactly the points of every document's keys |
| Engine.ErrorStopsIndexing | src/kb/engine.js:42-67 | after a failure no further document is indexed |
| Engine.SkipsDocsWithoutKeys | src/kb/engine.js:46 | a document without `keys` leaves the state unchanged |
| Engine.OneUpsertPerKey | src/kb/engine.js:48-62 | a document with keys adds one upsert per key and counts once |
| Engine.ReindexOverwrites | src/kb/engine.js:50 | point ids are deterministic, so indexing twice leaves the same points |
| Engine.IndexAgain | src/kb/engine.js:42-67 | whether indexing fails does not depend on the previous state |
| Engine.IndexAllSplit | src/kb/engine.js:44-65 | indexing a list is indexing a prefix, then the rest |
| Engine.KnowledgeBaseEngine.constructor | src/kb/engine.js:11-18 | the collection is the configured name or `knowledge_base`; no model is loaded and the collection is empty |
| Engine.KnowledgeBaseEngine.Query | src/kb/engine.js:69-86 | without a model the query throws; otherwise it returns `QueryHits` |
| Engine.KnowledgeBaseEngine.IndexDocuments | src/kb/engine.js:42-67 | the new points, upserts, count and error are `IndexAll` of the old state |
| Engine.KnowledgeBaseEngine.IndexOne | src/kb/engine.js:44-65 | one loop iteration is `IndexDoc` |
| Engine.KnowledgeBaseEngine.UpsertKeys | src/kb/engine.js:48-62 | adds exactly the document's key points and upserts |
| Engine.KnowledgeBaseEngine.SetupQdrant | src/kb/engine.js:32-40 | empties the collection, then indexes every document |
| Engine.KnowledgeBaseEngine.Init | src/kb/engine.js:20-30 | loads the model; fails before touching the collection when the document list fails; re-creates and re-indexes only when `recreate` |
| Affine.BlobUrlRecoversId | src/kb/affine.js:210-212 | a blob URL starts with the workspace's blob prefix and the blob id is what follows it |
| Affine.DocUrlRecoversId | src/kb/affine.js:403-405 | a document URL starts with the workspace prefix and the document id is what follows it |
| Affine.BlobUrlIsNotDocUrl | src/kb/affine.js:210-212 | no blob URL equals a document URL |
| Affine.EmptyUpdateValues | src/kb/affine.js:43-48 | an update is empty iff it has no bytes or is the two zero bytes |
| Affine.Renderings | src/kb/affine.js:204-207 | one rendering per child id, in order |
| Affine.RenderIdsConcat | src/kb/affine.js:204-208 | the children render to the concatenation of their renderings |
| Affine.RenderIdsFirstFailure | src/kb/affine.js:204-208 | a child that cannot be rendered makes the whole rendering fail with its error |
| Affine.DanglingChildRendersNothing | src/kb/affine.js:169 | a child id with no block renders as the empty string |
| Affine.BlockShapes | src/kb/affine.js:171-199 | a page renders as its title heading and then its children, a note as its children, any other block as a leaf |
| Affine.LeafEdgeCases | src/kb/affine.js:181-198 | a list item or paragraph without text is empty, an image without caption gets an empty caption, and unknown flavours render nothing |
| Affine.RenderBlockFuel | src/kb/affine.js:167-202 | a rendering that completes does not depend on the depth allowed |
| Affine.RenderChildrenFuel | src/kb/affine.js:204-208 | the same for the children of a block |
| Affine.RenderIdsFuel | src/kb/affine.js:204-208 | the same for a list of child ids |
| Affine.RenderBlockOnlyOverflows | src/kb/affine.js:167-202 | the only way rendering fails is a stack overflow |
| Affine.RenderIdsOnlyOverflow | src/kb/affine.js:204-208 | the same for a list of child ids |
| Affine.FindRoot | src/kb/affine.js:159-161 | the root is the first page block, and there is none iff no block is a page |
| Affine.RenderDocumentNeedsPage | src/kb/affine.js:157-165 | rendering throws `No affine:page block found` iff there is no page block |
| Affine.BlobsOfStep | src/kb/affine.js:280-286 | each entry adds its blob URL when it is an image with a source |
| Affine.BlobsExactly | src/kb/affine.js:280-286 | `blobs` has an entry iff some block is an image with a source id, and then maps it to that blob's URL |
| Affine.ParseAgreesWithRender | src/kb/affine.js:267-303 | `parseDocument` succeeds iff rendering does; it then holds `guid`, the title, the rendered content and the blobs |
| Affine.CookieValues | src/kb/affine.js:251 | each raw cookie is cut at its first `;` |
| Affine.CookieHeaderStripsAttributes | src/kb/affine.js:250-253 | cookies written `value; attributes` give the values joined with `; ` |
| Affine.CookiePiecesClean | src/kb/affine.js:251-252 | no kept cookie piece is empty or contains `;` |
| Affine.LoginSucceedsWhen | src/kb/affine.js:240-253 | login succeeds iff the response is OK and sets a cookie, and names the status when it is not OK |
| Affine.CustomPropsKeys | src/kb/affine.js:372-378 | a custom property is present iff some definition's `custom:<id>` value is defined |
| Affine.CustomPropsValues | src/kb/affine.js:372-378 | a custom property has the `custom:<id>` value of a definition with that name that supplies one |
| Affine.WithBasicSpec | src/kb/affine.js:379-382 | every basic property is set from the document (undefined when absent), and everything else is kept |
| Affine.DocPropsMerge | src/kb/affine.js:370-385 | the basic properties win over custom ones of the same name; the others come from the definitions |
| Affine.AllPropsKeys | src/kb/affine.js:370-387 | the property table has an entry iff the document is in the properties doc |
| Affine.PropsWin | src/kb/affine.js:133-138 | in the merged metadata the document's properties override the parsed ones, `id` and `url` |
| Affine.MetadataIdFromProps | src/kb/affine.js:133-138 | the merged `id` is the document's `id` property, undefined when it has none, not the requested id |
| Affine.Fetched | src/kb/affine.js:116-118 | a fetch succeeds iff the response is OK, and otherwise fails naming the status |
| Affine.AffineClient.constructor | src/kb/affine.js:10-27 | keeps the server, cookies and version; sets the space, with type `workspace`, only when a space id is given |
| Affine.AffineClient.SetSpace | src/kb/affine.js:60-63 | sets the space id and type, and nothing else |
| Affine.AffineClient.Login | src/kb/affine.js:228-256 | on success the cookies become the stripped header; on failure they are unchanged and the error is reported |
| Affine.AffineClient.GetPropDefs | src/kb/affine.js:352-366 | one definition per property map, with its `name`, `id`, `type` and `isDeleted` |
| Affine.PropsTable | src/kb/affine.js:368-388 | `getProps` throws iff the properties doc has maps while no definitions were loaded; an empty properties doc gives the empty table; otherwise the table has one entry per document id of the doc |
| Affine.AllPropsLast | src/kb/affine.js:370-385 | a document's entry is built from its last map in the properties doc |
| Affine.AffineClient.GetProps | src/kb/affine.js:368-388 | answers `PropsTable` of the fetched doc and the loaded definitions, and stores it as `props` when it does not throw |
| Affine.AffineClient.GetDocProps | src/kb/affine.js:390-401 | fetches or reuses the table, then answers one document's entry or the whole table; with no table read, an id lookup throws and no id gives `undefined` |
| Affine.AffineClient.GetDocument | src/kb/affine.js:130-140 | fetch, parse, then merge `id`, `url` and the document's properties into the metadata; it throws when a fetch, the parse or `getProps` throws, and then leaves the stored table as it was; cookies, space and definitions never change |
| Affine.AffineClient.ParseDocument | src/kb/affine.js:267-303 | the result is `ParseDocumentSpec` of the document's blocks |
| Prompt.SystemPartsCases | src/llm/prompt.js:20-39 | the system parts are the role, the separator and the article block, each present only when needed; empty iff both are empty |
| Prompt.HistoryMessages | src/llm/prompt.js:58-63 | one message per turn, in order, with the sender's role and the trimmed text |
| Prompt.HistoryMessagesSnoc | src/llm/prompt.js:58-63 | each loop step appends the next turn's message |
| Prompt.ChatMLShape | src/llm/prompt.js:47-65 | one system message, when there are parts, joining them with a blank line, followed by one message per turn |
| Prompt.ChatMLSystemIffParts | src/llm/prompt.js:50-55 | a system-role message appears iff there are system parts |
| Prompt.QwenTurns | src/llm/prompt.js:75-82 | one `<\|im_start\|>` block per turn, in order |
| Prompt.QwenEndsWithAssistant | src/llm/prompt.js:94-98 | the Qwen prompt ends with the assistant opener |
| Prompt.QwenStartsWithSystem | src/llm/prompt.js:84-98 | the Qwen prompt starts with the system opener iff there are system parts |
| Prompt.QwenSystemCloses | src/llm/prompt.js:84-91 | a Qwen system section ends with `<\|im_end\|>` |
| Prompt.PlainTurns | src/llm/prompt.js:108-113 | one role heading and text per turn, in order |
| Prompt.PlainEndsWithAnswer | src/llm/prompt.js:130-134 | the plain prompt ends with the answer heading |
| Prompt.PlainStartsWithRole | src/llm/prompt.js:122-134 | the plain prompt starts with the role heading iff there are system parts |
| Prompt.PlainHistoryHeading | src/llm/prompt.js:114-119 | the history section is empty iff there is no history, and otherwise starts with its heading |
| Prompt.PromptBuilder.constructor | src/llm/prompt.js:5-14 | role and article are trimmed or empty; a readable role file replaces the role |
| Prompt.PromptBuilder.ArticleArg | src/llm/prompt.js:44 | a truthy article argument wins over the stored one |
| Prompt.PromptBuilder.HistoryArg | src/llm/prompt.js:45 | a given history wins over the stored one |
| Prompt.PromptBuilder.BuildSystemPart | src/llm/prompt.js:20-39 | the pushes build `SystemParts` of the role and the article |
| Prompt.PromptBuilder.GetChatMLPrompt | src/llm/prompt.js:43-66 | the message list is `ChatML` of the system parts and the history |
| Prompt.PromptBuilder.GetQwenPrompt | src/llm/prompt.js:71-99 | ends with the assistant opener, and starts with the system opener iff there is a role or an article |
| Prompt.PromptBuilder.GetPlainPrompt | src/llm/prompt.js:104-135 | ends with the answer heading, and starts with the role heading iff there is a role or an article |
| Webhook.Digits | src/webhooks/message.js:19 | `replace(/\D/g, '')` keeps only digits and never lengthens the phone |
| Webhook.ValidationComesFirst | src/webhooks/message.js:11-13 | a falsy phone or message gets 400 whatever the socket's state |
| Webhook.NotReadyQueuesNothing | src/webhooks/message.js:15-17 | a valid body without a connected socket gets 500 |
| Webhook.OneMessageExactlyOnOk | src/webhooks/message.js:8-24 | at most one message is queued, exactly when the answer is `OK`, which is exactly for a truthy phone string and message with a connected socket; it goes to the phone's JID with the message unchanged |
| Webhook.DigitsAppend | src/webhooks/message.js:19 | the digits of a concatenation are the concatenation of the digits |
| Webhook.DigitsOfDigitString | src/webhooks/message.js:19 | a phone made of digits only is kept as it is |
| Webhook.DigitsCounts | src/webhooks/message.js:19 | every digit is kept as often as it occurs, and every other character is dropped |
| Webhook.JidIdentifiesDigits | src/webhooks/message.js:19 | two phones reach the same JID iff they have the same digits; a JID is the digits followed by `@s.whatsapp.net` |
| Registry.JsFiles | src/index.js:37 | exactly the `.js` files of the directory are considered |
| Registry.LoadPlanStep | src/index.js:39-69 | loading proceeds one file at a time, in directory order |
| Registry.RejectionEndsLoading | src/index.js:64-66 | once an `init` rejects, no later file is loaded |
| Registry.Add | src/index.js:28-31 | registering appends the callback to its event's list, creating it if needed, and leaves every other list as it is |
| Registry.RegisteredSnoc | src/index.js:64-67 | an `init` step registers nothing, and a register step adds one callback |
| Registry.RegisteredAppend | src/index.js:39-69 | registering two runs of steps is registering them one after the other |
| Registry.RegisteredLists | src/index.js:28-31 | each event's list is its old list followed by the callbacks registered for it, in load order |
| Registry.StepsFromLoadableFiles | src/index.js:42-67 | only files that pass the lists, are enabled or whitelisted and export a truthy `event` and a function produce steps |
| Registry.ListsExclude | src/index.js:42-50 | no blacklisted file, and no unlisted file under a whitelist, is initialised or registered |
| Registry.InitBeforeRegister | src/index.js:64-67 | a file with `init` is initialised before its callback is registered |
| Registry.LoadableFilesRegistered | src/index.js:39-69 | when no `init` rejects, every loadable file is registered for its event |
| Registry.EventCalls | src/index.js:90-100 | an event calls each of its callbacks once, in registration order |
| Registry.AllCallsStep | src/index.js:89-101 | the events of a batch are processed one after another |
| Registry.EveryCallbackCalled | src/index.js:89-101 | every callback of every event in the batch is called, in one contiguous run, after the calls of earlier events and before those of later ones |
| Registry.CallsBelow | src/index.js:89-101 | only events of the batch are dispatched |
| Registry.PrefixOfAll | src/index.js:89-101 | the calls of the first events come first |
| Registry.RejectionInEvent | src/index.js:91-100 | a rejection inside one event's calls ends the run there |
| Registry.HandlerRegistry.constructor | src/index.js:20-26 | the lists are the parsed variables; no handler is registered |
| Registry.HandlerRegistry.RegisterHandler | src/index.js:28-31 | the registry becomes `Add` of the old one |
| Registry.HandlerRegistry.LoadHandlers | src/index.js:33-70 | the steps and whether it rejected are `LoadPlan` of the `.js` files; the registry gains exactly the registered callbacks |
| Registry.HandlerRegistry.LoadFile | src/index.js:40-68 | one file's steps are `FileSteps` |
| Registry.HandlerRegistry.ProcessEvents | src/index.js:88-102 | callbacks are called in order and none is skipped: every call is made unless an earlier one rejected, and a rejection ends the batch |
| Registry.HandlerRegistry.ProcessEvent | src/index.js:90-100 | the callbacks of one event, in order, up to the first rejection |

## Left out

- I/O is not modelled: the network, the file system, sockets, `console` output and `process.env`. Fetched documents, directory listings, imported exports, search results, the embedding model and the language model's answer are parameters. `Date.now()` is the parameter `now`.
- `SESSION_TTL` is used in `session.js` but never declared, so the source as written throws a ReferenceError. The model takes it as the parameter `ttl`.
- `ChatSessionManager.init` and `close`, and the real Redis client, are not modelled. The manager is modelled with the in-memory fallback client.
- JSON is not modelled. History entries are stored as values, as if `JSON.parse(JSON.stringify(entry))` gave the entry back. `keys` is parsed by a parameter `parseKeys`.
- Object keys are strings. The properties doc yields string-keyed maps, and `Object.entries(events)` is a list of event names.
- Rendering takes a `fuel` depth bound standing for the JavaScript call stack. A cyclic block tree fails with a stack overflow rather than running forever.
- The duplicate `get` method in `affine.js` is not modelled: the first definition is dead code, and the HTTP `get` is a fetch input. `joinSpace`, `connect`, `registerEvents`, `downloadBlob` and `getDocs` are socket, file or GraphQL I/O; the document list is an input.
- The constructor's un-awaited `login` is not modelled. `login` is modelled separately as `AffineClient.Login`.
- `extractBlocks` is not modelled: block entries are given as a list in `Object.values` order.
- The `blocks` table of `parseDocument` is dropped from the result in the source, so it is not modelled.
- Affine.AffineClient.GetDocument: requires a non-empty document id. An empty id makes `getDocProps` return the whole property table, and the model does not merge a table into the metadata.
- UUIDv5 point ids are modelled by the name `docId:key` they hash, not by the hash. For a fixed document id the name is injective in the key. Across documents two pairs can give the same name, for example (`a:b`, `c`) and (`a`, `b:c`), and then their points overwrite each other as they do in the source.
- The engine's search `limit` is only passed to the search, whose results are an input.
- Embedding and upsert failures are not modelled; only failures of the document properties and of `keys` parsing stop indexing.
- Search scores are real numbers, not floating point.
- The role file of `PromptBuilder` is an input (`roleFile`). For an empty role, `path.resolve('')` is the working directory, so `existsSync` holds and `readFileSync` throws. The source therefore never builds a builder with an empty role unless a role file supplies one, and the model's `role == ""` cases are reachable only that way. Each history turn's `message` is a string; a turn whose message is not a string would make `trim` throw.
- `llmClient` (`llm/client.js`), `messaging.js`, `server.js`, `socket.js`, `util.js` and `handlers/connection.js` are not part of this model.
- Webhook.SendMessage: `req.body` is an object. A phone that is a truthy non-string is modelled as throwing; its own `replace` method, if any, is not modelled.
- The webhook's `init = null` and its log line are not modelled.
- Callbacks are identified by the file that registered them. Callbacks' results are not modelled, only whether they reject. The context object passed to them is not modelled.
- Registry.HandlerRegistry.ProcessEvents: a rejecting callback is modelled as ending the batch. The source awaits inside `sock.ev.process`, where the rejection is not caught.
- The dispatcher passes `{ sock, queueMessage }` to message handlers, but `echo.js` reads `queueReply`, and `llm.js` reads `text`, `queueReply` and `sessionManager`. As wired, echo throws on every dispatched message and llm returns false because `text` is undefined. This context mismatch is not modelled: each handler is modelled against the inputs it declares, and the dispatcher against a `handled` answer per handler and message.
- A message handler that rejects makes the whole upsert reject, so later messages are not processed. The dispatcher model's `handled` answer is a boolean and does not model rejections.
- The dispatcher never calls a message handler's `init`; `llm.js`'s `init` is modelled on its own as `Llm.RagHandler.Init`.
- JavaScript numbers are modelled as unbounded integers (`Num(n: int)`, integer priorities). Fractional priorities, `NaN` and `Infinity` are not modelled. With a `NaN` priority the comparator `b.priority - a.priority` returns `NaN` and the engine's order is unspecified; `NaN` is also falsy, and `String` of a fraction is not produced.
- Engine.KnowledgeBaseEngine.Init: the outcomes of `getPropDefs()` and `getDocs()` (engine.js:26-27) are folded into the one `docs` parameter, which fails when either fails. Each document's properties come from the independent input `propsOf`, so the model does not tie the loaded definitions to whether a later `getProps` throws (that link is modelled on its own by `Affine.PropsTable`).
