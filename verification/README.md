# A verified model of the warehouse front end and its scripts

This Dafny project models the parts of the warehouse system in which several things go on at once or in which a fast
form has to equal a simple one, and proves what they promise. `dafny verify dfyconfig.toml` checks all of it.

**The assistant session** (`Session`, `SessionLog`, `SessionSafety`, `SessionBusy`, `SessionIsolation`,
`SessionHandlers`, `Assistant`). Questions, receipt uploads, confirmations, restores, new conversations and account
switches run concurrently over shared references. Each handler is cut at its awaits; a segment between two awaits is one
atomic function on the references, an operation waiting at an await is kept with the generations it captured, and a run
is any sequence of user actions and replies. The handlers are written as methods that assign fields in
`Assistant.UnifiedAgentAssistant`. The object also keeps the operations in flight, `Valid` is the invariant of the
session, and each method is one step of a run: it keeps `Valid`, keeps an owner of the busy flag unless it is the
unguarded "new conversation", and says what a caller gets from it (`SessionHandlers`). What the thread shows is
described from the events and messages alone (`SessionLog`). A wait for the restore promise may end at any time, and any
reply may arrive at any time, so the model has more runs than the program.

**The edition publisher** (`Editions`, `LogicalPaths`, `Publisher`, `PublisherSafety`, `PublisherProgress`, `Install`).
A volume is the top level of a tenant directory and the trees of its editions. An installer is a sequence of system
calls, partial writes included; any number of installers take turns and any of them may stop for ever after any call.
`Install.Storage` is the script itself, run alone, as methods on the volume.

**The order forms** (`Keys`, `Orders`, `OrdersSafety`, `OrderForm`). Inbound, outbound and repair forms with their
pending request ids in session storage, renders that mint ids, retries, lost and late replies, forms closed and
reopened, and company switches. The server is assumed to create at most one order per company header and request id,
and minted ids are assumed to be new; nothing else is assumed of it. `Keys` models the encoding of the company in the
storage key down to the UTF-8 bytes. In `OrderForm` the storage and the forms are objects whose methods are steps of
these runs and keep their invariant.

**Printers, parsers and framers** (`Text`, `Csv`, `Framing`, `MarkdownLines`, `MarkdownRows`, `MarkdownBlocks`,
`MarkdownInline`). The CSV download against an independent reader, the stream readers against a split of the whole text,
and the block and inline parsers of the answer renderer against declarative descriptions of their results.

**Fast forms** (`BargeIn`, `I18nTables`, `I18nCache`, `VirtualTable`, `Grouping`, `BudgetRollup`, `Contracts`,
`ContractReport`). Each is proved equal to the simple form it stands for.

## What turned out not to hold

* "New conversation" from the history drawer is not guarded. Taken while busy, it leaves the busy flag set with nobody
  to release it, until the account changes (`SessionBusy.DrawerBreaksOwnershipIffBusy`, `StrandedForever`,
  `DrawerStrandsTheFlag`). With the header's guard, ownership holds in every run (`BusyIsOwned`).
* A step files a conversation under another account's key exactly if it is a current continuation that brings a
  conversation of another account than the stored one, and a run is free of misfiled keys exactly if no step of it is
  such (`SessionIsolation.StepFilesIff`, `RunFilesIff`). That happens between a change of the stored account and the
  handler of that change (`LateHandlerMisfiles`), and only there: without a reply in between, every run stays filed
  (`InTimeStaysFiled`). A queued prompt survives the switch (`QueuedPromptSurvivesSwitch`).
* Orders are created at most once per id exactly when a browser does not use both no company and a company named
  `no-tenant`, which share their storage keys (`OrdersSafety.OrdersAtMostOnceIff`).
* An installed edition reads back exactly when the paths of the catalogue that name one target list one size and digest
  (`PublisherSafety.CompleteReadsBackIff`). An unchanging bundle ensures it (`UnchangingBundleAgrees`); a bundle that
  changes between two reads of one target is accepted without it (`ChangingBundleMisreads`, `ChangingBundleIsWritten`).
* A CSV download reads back exactly when the header and no row are empty (`Csv.RoundTripIff`).
* The stream readers differ on what follows the last line feed and after a line that does not parse. They agree exactly
  when no line is bad and nothing but space follows the last line feed, or when nothing that parses follows the first
  bad line; if the first bad line is the unterminated tail they agree (`Framing.ReadersAgreeIff`).
* The barge-in counter is the best window's worth all along exactly when every loud frame that seems to take negative
  time is made up for by a window just before it; a clock set back can break that (`BargeIn.AboveIsBestIff`,
  `SteppedBackClockDelays`).
* The virtual table draws more than its 26 rows exactly when the end of the window is negative, which takes an offset of
  at least seven rows and a viewport above the content, and counts back to more than 26 rows
  (`VirtualTable.WindowIsSmallIff`, `EndIsNegativeIff`).
* A source text written over a node comes back exactly when it is not the translation the cache holds
  (`I18nCache.WriteComesBackIff`).
* The template matcher is exact unless a literal `{}` or an empty segment faces it (`Contracts.CompatibleIff`).
* Two paragraphs can touch only before a line that opens like a heading and contains a line or paragraph separator
  (`MarkdownBlocks.ParagraphEnd`).

## Model

| member | source | states |
|---|---|---|
| `SessionSafety.RunKeepsInv` | frontend/agent-assistant.jsx:843-1295 | every interleaving of every handler keeps the session invariant: captured generations are bounded and unshared, whoever is current holds the flag, and a current stream excludes pending restores |
| `SessionLog.FoldShowsSteps` | frontend/agent-assistant.jsx:1136-1142 | the shown steps are one for each start, in order, with that start's number: finished with the payload of the first later event of that number, or running with the start's payload if there is none |
| `SessionLog.ShownIsUnique` | frontend/agent-assistant.jsx:1136-1142 | and that determines the list of steps |
| `SessionLog.FoldShowsContent` | frontend/agent-assistant.jsx:1148-1155 | a question's placeholder says the last final message, an upload's what was recognised and then every final message in a paragraph of its own |
| `SessionLog.HearingIsUnique` | frontend/agent-assistant.jsx:1131-1156 | what one event makes of an item, step by step, determines the item |
| `SessionSafety.StreamShowsOwnRun` | frontend/agent-assistant.jsx:1011-1176 | in every reachable state, while an ask or upload is current the flag is set, no restore or other operation is current, the last streaming item is its own placeholder, and that shows what its own events say: one step per start, in order, each as the first event that finishes it left it, and the text of the final messages |
| `SessionSafety.HolderShowsOwnRun` | frontend/agent-assistant.jsx:1011-1176 | in every state of the invariant, a run that holds the stream has the last streaming item for itself, showing what its own events say, and excludes every other holder and pending restore |
| `SessionSafety.ThreadIsStableUnderStream` | frontend/agent-assistant.jsx:1011-1022 | while a run stays current, no step of anything changes the thread except the run's own placeholder |
| `SessionSafety.EventUpdatesOwnItem` | frontend/agent-assistant.jsx:1131-1156 | an event of the current run appends its step, or finishes the running steps of its number, or says its message in its own item, and leaves every other item and all guards unchanged |
| `SessionSafety.BeginLaunches` | frontend/agent-assistant.jsx:843-932 | a first segment either changes nothing that is guarded or supersedes everything by a newer generation that its own operation carries |
| `SessionSafety.StartKeepsInv` | frontend/agent-assistant.jsx:1105-1120 | an ask or upload that starts after its await, possibly superseding another operation, becomes the only current one |
| `SessionSafety.RestoreResumeKeepsInv` | frontend/agent-assistant.jsx:874-898 | a restore's continuation keeps the invariant whether it is still current or not |
| `SessionBusy.BusyIsOwned` | frontend/agent-assistant.jsx:1034-1295 | in every run that takes "new conversation" only when not busy, the busy flag is set exactly while one operation in flight holds the current generations, and that operation is unique |
| `SessionBusy.StepKeepsBusyOwned` | frontend/agent-assistant.jsx:1034-1295 | each guarded step keeps flag and owner in agreement, supersession included |
| `SessionBusy.DrawerBreaksOwnershipIffBusy` | frontend/agent-assistant.jsx:1368-1372 | after "new conversation" from the drawer the flag has an owner if and only if it was not set before |
| `SessionBusy.StrandedForever` | frontend/agent-assistant.jsx:904-932 | a flag without an owner, with no ask or upload of this identity waiting, stays set in every further run without an account switch |
| `SessionBusy.DrawerStrandsTheFlag` | frontend/agent-assistant.jsx:1372 | the trace that strands it: restore, ask, then "new conversation" from the drawer while the answer streams |
| `SessionIsolation.StaleContinuationIsSilent` | frontend/agent-assistant.jsx:973-993 | a continuation started under an earlier identity changes no reference: thread, conversation, stored keys, flags and generations stay |
| `SessionIsolation.EarlierIdentitiesDoNotInterfere` | frontend/agent-assistant.jsx:843-1295 | from any point of any run on, deleting all operations of earlier identities and all their replies leaves every later state of the references the same |
| `SessionIsolation.HandlerMakesEverythingStale` | frontend/agent-assistant.jsx:975-993 | the account-change handler makes every operation in flight stale, clears the session, and leaves at most a new current restore |
| `SessionIsolation.StepFilesIff` | frontend/agent-assistant.jsx:873-881 | any step keeps every conversation under its own account's key if and only if it is not a current continuation that brings a conversation sent to another account than the stored one |
| `SessionIsolation.RunFilesIff` | frontend/app.jsx:730-758 | for every run, account changes at any point included, the stored keys are right all along if and only if no step of it misfiles |
| `SessionIsolation.InTimeStaysFiled` | frontend/app.jsx:754-758 | when no reply is handled between a change of the account and its handler, every run keeps each conversation under its own account's key |
| `SessionIsolation.ConversationsStayFiled` | frontend/agent-assistant.jsx:877-881 | in every run in which each account change runs its handler at once, the stored keys and the current conversation are the right account's |
| `SessionIsolation.LateHandlerMisfiles` | frontend/agent-assistant.jsx:880 | a run in which the handler comes late stores a restored conversation under another account's key |
| `SessionIsolation.QueuedPromptSurvivesSwitch` | frontend/agent-assistant.jsx:1180-1185 | a queued prompt is not cleared by a switch and is asked in the next account's session |
| `SessionHandlers.LoadTakesOver` | frontend/agent-assistant.jsx:843-851 | in every state of the invariant, a restore that begins takes the stream from all others and is the only one that may complete |
| `SessionHandlers.NewTakesOver` | frontend/agent-assistant.jsx:904-912 | so does a new conversation, which holds the stream itself |
| `SessionHandlers.CurrentRestore` | frontend/agent-assistant.jsx:874-898 | after a current restore the thread shows the messages in their order, nothing streams, and no run or new conversation holds the stream |
| `SessionHandlers.CurrentNew` | frontend/agent-assistant.jsx:915-931 | the same of a current new conversation |
| `SessionHandlers.WaitStarts` | frontend/agent-assistant.jsx:1105-1120 | a question or upload starts exactly if ready and of the present identity; then it alone holds the stream, and the thread has grown by what the user said and by its empty placeholder, the last item that streams |
| `SessionHandlers.EventIsHeard` | frontend/agent-assistant.jsx:1130-1157 | an event is heard exactly by a run that holds the stream: its item changes as the event says, step by step, and shows the run's events so far; a start makes its conversation current and stores it; otherwise the whole state is unchanged |
| `SessionHandlers.StreamEnds` | frontend/agent-assistant.jsx:1158-1175 | a run that ends while holding the stream shows its own events; an end only stops the streaming, an abort leaves it, a failure is appended for an upload and said by a question that has said nothing |
| `SessionHandlers.ReceiptGoesOn` | frontend/agent-assistant.jsx:1061-1066 | a recognised receipt keeps its place and the stream for the run that follows |
| `Assistant.UnifiedAgentAssistant.LoadConversation` | frontend/agent-assistant.jsx:843-851 | refused while busy; otherwise its restore is the only pending one, no operation in flight holds the stream any more, and nothing shown or stored has changed |
| `Assistant.UnifiedAgentAssistant.ShowsOwnRun` | frontend/agent-assistant.jsx:1011-1022 | after any handlers, a run that holds the stream shows its own events, alone |
| `Assistant.UnifiedAgentAssistant.RestoredThread` | frontend/agent-assistant.jsx:857-876 | the loop builds exactly that list of items |
| `Assistant.UnifiedAgentAssistant.BootstrapArrived` | frontend/agent-assistant.jsx:857-883 | a current restore shows the messages in their order, each with its role, text and, if the assistant's, its steps, then the card if there are actions, and the welcome if there is nothing; it stores or forgets the conversation of the account it was sent to; a superseded one changes nothing |
| `Assistant.UnifiedAgentAssistant.BootstrapFailed` | frontend/agent-assistant.jsx:885-898 | a current failure leaves no conversation current or stored under the account's key, nothing streaming and no readiness; a superseded one changes nothing |
| `Assistant.UnifiedAgentAssistant.OnOpenAgent` | frontend/agent-assistant.jsx:935-946 | opening the panel with a task queues it and changes nothing shown or stored; a new pending restore exists only if the panel was closed and nothing was busy |
| `Assistant.UnifiedAgentAssistant.SetOpen` | frontend/agent-assistant.jsx:1316-1369 | the launcher and the close button show or hide the panel and change nothing else |
| `Assistant.UnifiedAgentAssistant.NewConversationBegin` | frontend/agent-assistant.jsx:904-912 | it holds the stream alone and excludes every pending restore without asking whether anything is busy; the flag has an owner afterwards exactly if it was free |
| `Assistant.UnifiedAgentAssistant.NewFromHeaderButton` | frontend/agent-assistant.jsx:1368 | from the guarded button the flag keeps its owner, and nothing happens while busy or restoring |
| `Assistant.UnifiedAgentAssistant.NewConversationCreated` | frontend/agent-assistant.jsx:915-931 | if still current, the new conversation is the current and stored one of the account that asked, and the thread starts anew; otherwise nothing changes |
| `Assistant.UnifiedAgentAssistant.NewConversationFailed` | frontend/agent-assistant.jsx:922-931 | if still current, no conversation is current or stored and nothing may be asked before the next restore; otherwise nothing changes |
| `Assistant.UnifiedAgentAssistant.OnUserChanged` | frontend/agent-assistant.jsx:975-993 | afterwards everything in flight is stale, the flag is free, the session is empty, nothing stored has changed, and an open panel has a current restore |
| `Assistant.UnifiedAgentAssistant.UpdateStreamingAssistant` | frontend/agent-assistant.jsx:1011-1022 | the backward search updates the last streaming item and no other, and nothing if there is none |
| `Assistant.UnifiedAgentAssistant.AskBegins` | frontend/agent-assistant.jsx:1101-1105 | refused when empty or busy; otherwise this question waits under the present identity and no reference has changed |
| `Assistant.UnifiedAgentAssistant.AutoAsk` | frontend/agent-assistant.jsx:1180-1185 | a queued task is asked exactly when the panel is open, restored and idle, and leaves the queue |
| `Assistant.UnifiedAgentAssistant.UploadBegins` | frontend/agent-assistant.jsx:1034-1036 | refused while busy; otherwise this upload waits under the present identity and no reference has changed |
| `Assistant.UnifiedAgentAssistant.StartStream` | frontend/agent-assistant.jsx:1106-1120 | it starts exactly if ready and of the present identity, without asking for the flag; then it holds the stream alone, owns the flag, and the thread has grown by what the user said and by its own placeholder; otherwise nothing changes |
| `Assistant.UnifiedAgentAssistant.OnEvent` | frontend/agent-assistant.jsx:1130-1157 | a superseded event changes nothing; a current one changes only the run's own item: a start appends a running step, a finish gives every running step of its number its payload and stops it, a final message is said or appended, and a run start makes its conversation current and stored |
| `Assistant.UnifiedAgentAssistant.OnStreamEnd` | frontend/agent-assistant.jsx:1158-1175 | a superseded end changes nothing; a current one frees the flag and stops its own item, the only one changed, whose steps and text, those of the run's events, stay |
| `Assistant.UnifiedAgentAssistant.OnStreamFailure` | frontend/agent-assistant.jsx:1160-1175 | a superseded failure changes nothing; a current one frees the flag and keeps the steps of its own item, the only one changed, which says the failure as uploads and questions do, or goes on streaming unchanged exactly if the run was aborted |
| `Assistant.UnifiedAgentAssistant.ReceiptRecognised` | frontend/agent-assistant.jsx:1061-1066 | if still current, the run goes on as a stream in the same place that first says the summary, and only its own item has changed; otherwise nothing changes and it is over |
| `Assistant.UnifiedAgentAssistant.ReceiptFailed` | frontend/agent-assistant.jsx:1067-1073 | a superseded failure changes nothing; a current one frees the flag and ends its own item, the only one changed |
| `Assistant.UnifiedAgentAssistant.ActionBegins` | frontend/agent-assistant.jsx:1187-1195 | refused while busy; otherwise it owns the flag, holds the stream alone, and nothing shown or stored has changed |
| `Assistant.UnifiedAgentAssistant.ActionEnds` | frontend/agent-assistant.jsx:1198-1219 | a superseded end changes nothing; a current one frees the flag and the thread grows by what is said, if anything |
| `Assistant.UnifiedAgentAssistant.DraftEdited` | frontend/agent-assistant.jsx:1257-1275 | an edited draft that is still current goes on to its confirmation as the owner of the flag; a superseded one is over |
| `Editions.Validate` | scripts/install_research_showcase.py:27-46 | accepted exactly if every listed file is safely named, present and of the listed size and digest and every document is listed; otherwise the first failing check decides the error |
| `Editions.AcceptsIff` | scripts/install_research_showcase.py:27-46 | accepted exactly if available, 1 to 500 files, each safe, present and of the listed size and digest, and every document a listed path |
| `LogicalPaths.UnsafeIff` | scripts/install_research_showcase.py:33-35 | a path is refused exactly if it starts at the root, holds a backslash, or has two dots between separators |
| `LogicalPaths.NormalOfPath` | scripts/install_research_showcase.py:36 | two paths with a slash between them are one after the other |
| `LogicalPaths.NormalOfName` | scripts/install_research_showcase.py:36 | a text without a slash names itself, or nothing if it is empty or a dot |
| `LogicalPaths.SafeStaysBelow` | scripts/install_research_showcase.py:33-38 | a path that is not refused names only places below where it starts |
| `Publisher.RunKeepsInv` | scripts/install_research_showcase.py:52-81 | every interleaving of installers' system calls keeps: each tree is exactly what its installer has written, editions and temporary links are unshared, and what was there before is untouched |
| `Publisher.AdvanceIsContained` | scripts/install_research_showcase.py:56-74 | one system call changes only the installer's own edition, its own temporary link and, when it publishes, the active link; it adds no other name, and publishing removes the temporary link |
| `Publisher.AdvanceProgresses` | scripts/install_research_showcase.py:60-67 | each call takes the tree to exactly what the entries so far describe |
| `PublisherSafety.LinkLeadsToTree` | scripts/install_research_showcase.py:72 | the relative target of the new link, followed from the tenant's root, leads to the tree of its edition |
| `PublisherSafety.LinkIsPriorOrComplete` | scripts/install_research_showcase.py:52-74 | whatever stops where, a reader who follows the active link finds what was there before, or at every path exactly the verified files and the catalogue of one new edition; and everything that stood anywhere else is still found there |
| `PublisherSafety.WrittenEditionIsFrozen` | scripts/install_research_showcase.py:58-67 | once an installer has closed its last file, no run of any installers changes that edition |
| `PublisherSafety.OnlyPublishingMovesLink` | scripts/install_research_showcase.py:68-74 | the link moves only by the replacing call of an installer whose edition is complete, and then a reader finds exactly its files; a run that raises has not moved it |
| `PublisherProgress.RaisesIff` | scripts/install_research_showcase.py:52-74 | whatever others do in between, an installer whose files fit raises at a call if and only if what the call needs is not there |
| `PublisherProgress.SoloPublishes` | scripts/install_research_showcase.py:52-81 | from any reachable state an installer whose files fit and whose way is clear publishes by finitely many calls of its own, and reports the target that the link had |
| `PublisherSafety.CompleteReadsBackIff` | scripts/install_research_showcase.py:61-67 | every listed path of a complete edition, aliases included, reads back with its listed size and digest if and only if the paths of the catalogue that name one target list one size and digest |
| `PublisherSafety.UnchangingBundleAgrees` | scripts/install_research_showcase.py:31-44 | a catalogue that an unchanging bundle meets lists one size and digest for each target |
| `PublisherSafety.ChangingBundleMisreads` | scripts/install_research_showcase.py:31-44 | an explicit bundle that changes between the reads of `a` and `./a` is accepted, and its edition, however it was completed, has a path that does not read back |
| `PublisherSafety.ChangingBundleIsWritten` | scripts/install_research_showcase.py:60-67 | that edition can be completed: the second spelling overwrites the first |
| `Install.Storage.Run` | scripts/install_research_showcase.py:24-81 | a run validates and publishes: on failure a reader finds what was there before, on success exactly the verified files and the catalogue in a new edition, and it succeeds whenever the bundle passes and nothing is in the way; everything else is still found where it was |
| `Install.Storage.WriteEdition` | scripts/install_research_showcase.py:56-67 | the written edition is exactly the verified files and the catalogue, made under a name that was free |
| `Install.Storage.SwapLink` | scripts/install_research_showcase.py:68-74 | the link is replaced, by one to the edition below the editions directory, exactly if it is absent or managed and the temporary name is free, and its prior target is returned |
| `Keys.EncodedIsUtf8` | frontend/page-inbound.jsx:17-20 | a character stands for itself if it is a letter, a digit or one of nine marks, and otherwise is the percent-escaped bytes of its UTF-8 form (section 3 of RFC 3629) |
| `Keys.EncodeAppends` | frontend/page-inbound.jsx:17-20 | a text is encoded character by character |
| `Keys.EncodeIsInjective` | frontend/page-inbound.jsx:17-20 | the percent-encoding of UTF-8 is injective on every text |
| `Keys.KeysAgreeIff` | frontend/page-outbound.jsx:12-15 | two storage keys are equal exactly if the forms are of one kind and their companies are equal or are the missing one and `no-tenant` |
| `Orders.RunKeepsInv` | frontend/page-inbound.jsx:120-175 | every run of opens, renders, submits, replies, losses, closings and company switches keeps the order invariant |
| `Orders.TakeKeepsInv` | frontend/page-inbound.jsx:21-29 | taking the stored id or minting one, also on a mere render, keeps the invariant |
| `Orders.AcknowledgeKeepsStore` | frontend/page-inbound.jsx:30-34 | clearing by comparison removes exactly the acknowledged id, and never another pending one |
| `OrdersSafety.PendingIdsAreNeverLost` | frontend/page-inbound.jsx:21-34 | in every run each minted id that is not acknowledged is still the one stored under its key, and what is stored is not acknowledged |
| `OrdersSafety.StoredIdsMoveOneWay` | frontend/page-outbound.jsx:16-27 | one step takes a stored id only from absent to new, or from `x` to absent on the acknowledgement of `x` |
| `OrdersSafety.IdsAgreeWithTheirTenant` | frontend/app.jsx:25-46 | every request carries an id minted under the storage key of its form's kind and the company in its header, and every order is that of such a request, across switches at any point |
| `OrdersSafety.OrdersAtMostOnce` | frontend/page-outbound.jsx:112-133 | given the server's deduplication by company and id, no id creates two orders |
| `OrdersSafety.OneOrderPerId` | frontend/page-outbound.jsx:112-133 | in every state of the invariant whose requests are for unambiguous companies, no id has two orders |
| `OrdersSafety.OrdersAtMostOnceIff` | frontend/page-outbound.jsx:12-15 | that holds of all runs over a set of companies if and only if the set does not hold both no company and `no-tenant` |
| `OrdersSafety.Twice` | frontend/page-inbound.jsx:150 | the run that orders twice passes the key check after a switch to `no-tenant` |
| `OrdersSafety.OrdersWithinAcknowledged` | frontend/page-inbound.jsx:149-175 | under each storage key there is at most one order more than there are acknowledged ids |
| `OrderForm.Browser.PendingRequestId` | frontend/page-inbound.jsx:21-29 | the id returned is pending under the key: minted for it, stored there and not acknowledged; no stored id is replaced |
| `OrderForm.Browser.ClearPendingRequestId` | frontend/page-outbound.jsx:25-27 | the acknowledged id is stored nowhere afterwards and every other stored id stays, a newer one under the same key included |
| `OrderForm.Browser.SetCurrentTenant` | frontend/app.jsx:26-29 | a switch of the company touches no form, no stored id and no request, and keeps the invariant |
| `OrderForm.Browser.OrdersOnce` | frontend/page-outbound.jsx:112-133 | whatever its forms have done, a browser whose requests were for unambiguous companies has no id with two orders |
| `OrderForm.OrderForm.constructor` | frontend/page-inbound.jsx:121-122 | a mounted form has an id that is pending under the current company's key, one left over from before included |
| `OrderForm.OrderForm.Render` | frontend/page-inbound.jsx:121-122 | a later render keeps the form's references and every stored id, and mints nothing while the form's id is pending |
| `OrderForm.OrderForm.Reset` | frontend/page-outbound.jsx:142 | the repair form gets an id that is pending under the current company's key |
| `OrderForm.OrderForm.Submit` | frontend/page-outbound.jsx:257-267 | what goes out carries an id minted for a form of this kind and the company in the header; after a switch to a company with another key, and only then, nothing goes out and nothing changes |
| `OrderForm.OrderForm.OnFailure` | frontend/page-inbound.jsx:174 | unless the id has been acknowledged through another form, it is still pending under the form's key, so the retry sends the same one |
| `OrderForm.OrderForm.OnSuccess` | frontend/page-inbound.jsx:166-173 | the id that was sent is acknowledged and stored nowhere, and every other stored id stays |
| `OrderForm.OrderForm.Close` | frontend/page-inbound.jsx:171 | leaving the form keeps its request, its references and the stored ids |
| `Csv.DownloadReads` | frontend/page-reports.jsx:9-15 | a reader of section 2 of RFC 4180 gets from any download header and rows in order, each value as its text, null as nothing, an empty row as one empty cell |
| `Csv.PlainIff` | frontend/page-reports.jsx:10-13 | a value is printed as it is exactly if it holds no quote, comma or line feed |
| `Csv.RoundTripIff` | frontend/page-reports.jsx:9-15 | it gets exactly header and rows, for arbitrary cell texts, if and only if none of them is empty |
| `Csv.DownloadIsInjective` | frontend/page-reports.jsx:14-15 | tables of non-empty rows with different texts download differently |
| `Text.SplitOfConcat` | frontend/agent-assistant.jsx:152-154 | cutting a text anywhere glues the last piece before the cut to the first after it |
| `Text.SplitJoins` | frontend/agent-assistant.jsx:674 | joining the pieces of a split restores the text |
| `Text.JoinSplits` | frontend/agent-assistant.jsx:734 | splitting joined separator-free pieces restores them |
| `Text.TrimIsMiddle` | frontend/agent-assistant.jsx:83 | trimming takes off all space at both ends and nothing else |
| `Framing.DeliverLines` | frontend/page-datahub.jsx:24 | cutting the buffer at each line feed delivers exactly its terminated non-blank lines that parse and keeps the rest |
| `Framing.AgentRunStream` | frontend/agent-assistant.jsx:75-89 | for every way of cutting the stream into chunks, the events are those of the whole text |
| `Framing.HandleLines` | frontend/agent-assistant.jsx:137-139 | lines are handled in order, blank ones skipped, until one does not parse |
| `Framing.AiStreamJson` | frontend/agent-assistant.jsx:150-161 | the same for the reader that also takes a carriage return off each line and handles the tail |
| `Framing.FramedDelivers` | frontend/agent-assistant.jsx:78-86 | the first readers deliver exactly the terminated lines that are not blank and parse, trimmed, each once and in order |
| `Framing.StreamedDelivers` | frontend/agent-assistant.jsx:137-161 | the JSON reader delivers exactly the non-blank lines before the first bad one, with one carriage return taken off and the tail included, each once and in order, and fails exactly if there is a bad one |
| `Framing.StreamedAgainstFramed` | frontend/agent-assistant.jsx:137-161 | on every text the second reader delivers a prefix of what the first delivers plus the tail |
| `Framing.ReadersAgreeIff` | frontend/page-datahub.jsx:20-26 | on every text the readers agree exactly if, with no bad line, nothing but space follows the last line feed, or else no terminated line from the first bad one on delivers anything |
| `MarkdownLines.HeadingIff` | frontend/agent-assistant.jsx:699 | the heading scan accepts exactly the lines its regular expression matches |
| `MarkdownLines.ItemIff` | frontend/agent-assistant.jsx:715-718 | the list-item scan accepts exactly the lines its regular expression matches |
| `MarkdownLines.QuoteIff` | frontend/agent-assistant.jsx:708 | a quote is a line that starts with the mark |
| `MarkdownLines.OrderedIff` | frontend/agent-assistant.jsx:716 | a list is ordered exactly if its first item's marker is digits and a dot |
| `MarkdownLines.HeadingText` | frontend/agent-assistant.jsx:699-703 | a heading is its hashes, all the space after them and its shown text |
| `MarkdownLines.ItemTextIsRest` | frontend/agent-assistant.jsx:718 | a list item is its indentation, its marker, all the space after it and its shown text |
| `MarkdownLines.QuoteTextIsRest` | frontend/agent-assistant.jsx:709 | a quote is its mark, at most one space and its shown text |
| `MarkdownLines.RowCells` | frontend/agent-assistant.jsx:666 | the cells of a table row hold no separator and untrimmed join to the trimmed line without its outer pipes |
| `MarkdownRows.RowIs` | frontend/agent-assistant.jsx:666 | a row is every piece between pipes, trimmed, without an empty first and an empty last one, but never without the only one |
| `MarkdownRows.RowOfCells` | frontend/agent-assistant.jsx:666 | the row of cells joined by pipes is the trimmed cells, with a pipe in front, behind, both or neither |
| `MarkdownRows.RowHasParts` | frontend/agent-assistant.jsx:666 | and every line is such a row |
| `MarkdownRows.SeparatorIff` | frontend/agent-assistant.jsx:667-671 | a separator line is one with a pipe whose cells are dashes with an optional colon at either end and space around |
| `MarkdownLines.RuleIff` | frontend/agent-assistant.jsx:670 | the separator-cell scan accepts exactly the cells its regular expression matches |
| `MarkdownBlocks.ParseBlocks` | frontend/agent-assistant.jsx:677-735 | the loop ends, and its blocks are in order, disjoint and non-empty, start where their kind starts, extend as far as it continues, say what their lines say, and leave out only blank lines |
| `MarkdownBlocks.ParseIsUnique` | frontend/agent-assistant.jsx:677-735 | any two lists of blocks with these properties are equal, so the properties determine the whole result |
| `MarkdownBlocks.ParagraphStartsNothingElse` | frontend/agent-assistant.jsx:728-733 | no line of a paragraph starts another kind of block |
| `MarkdownBlocks.ParagraphEnd` | frontend/agent-assistant.jsx:730 | the line after a paragraph starts a paragraph exactly if it opens like a heading, is none, and starts no table |
| `MarkdownBlocks.ReturnsAreCut` | frontend/agent-assistant.jsx:674 | only carriage returns are taken out of the text |
| `MarkdownBlocks.MarkdownView` | frontend/agent-assistant.jsx:673-737 | the view parses the text's lines, and each paragraph's text splits back into exactly its lines |
| `MarkdownInline.InnerIff` | frontend/agent-assistant.jsx:651 | the scan for a mark succeeds exactly where the alternative of the regular expression matches |
| `MarkdownInline.MatchIsInner` | frontend/agent-assistant.jsx:651 | what stands between the delimiters of a match is determined |
| `MarkdownInline.MatchAtIff` | frontend/agent-assistant.jsx:651-659 | something is found at a place exactly if one of the four alternatives, written out, matches there, and what is found is its match |
| `MarkdownInline.Inline` | frontend/agent-assistant.jsx:649-664 | the loop ends, and its pieces are plain text up to the leftmost match and the first alternative that matches there, again and again |
| `MarkdownInline.CutIsWhole` | frontend/agent-assistant.jsx:654-663 | such pieces, with their delimiters restored, concatenate to the text |
| `MarkdownInline.CutIsUnique` | frontend/agent-assistant.jsx:654-663 | and a text has only one such list of pieces |
| `BargeIn.ArmBargeIn` | frontend/agent-assistant.jsx:230-250 | the loop interrupts at the first current frame whose counter exceeds the threshold, and stops before it when the playback is no longer current |
| `BargeIn.MeanExceeds` | frontend/agent-assistant.jsx:235-238 | the sample loop decides whether the samples exceed 24 on balance |
| `BargeIn.LoudIff` | frontend/agent-assistant.jsx:235-238 | the mean exceeds the level exactly if the excesses of the samples over 24 add up to more than 0 |
| `BargeIn.SpansElapse` | frontend/agent-assistant.jsx:237-239 | loud and quiet time of any window add up to the time between the clock readings at its ends |
| `BargeIn.AboveIsBestWindow` | frontend/agent-assistant.jsx:238 | with a clock that never steps back the counter is the maximum over all windows ending now, the empty one included, of loud time less twice quiet time |
| `BargeIn.AboveIsBestIff` | frontend/agent-assistant.jsx:238 | with any clock it is that maximum all along if and only if each loud frame of negative duration is made up for by a window just before it |
| `BargeIn.TalkingIffWindow` | frontend/agent-assistant.jsx:238-240 | the threshold is exceeded exactly if some window has loud time above twice its quiet time by more than 350 ms |
| `BargeIn.SteppedBackClockDelays` | frontend/agent-assistant.jsx:237-238 | a clock set back during a loud frame hides a loud window |
| `I18nTables.ToSimplified` | frontend/i18n.jsx:42-51 | both loops together compute phrase replacement and then the character table; skipping absent phrases changes nothing |
| `I18nTables.ReplaceAllIsSplitJoin` | frontend/i18n.jsx:44-47 | replacing a phrase is splitting the text at its occurrences, each the first one left, and joining with the replacement |
| `I18nTables.OccursIff` | frontend/i18n.jsx:45 | a phrase is skipped exactly if it occurs at no place |
| `I18nTables.SimplifiedIs` | frontend/i18n.jsx:48-50 | each character then becomes what the table has for it, or stays |
| `I18nTables.VisibleStaysVisible` | frontend/i18n.jsx:42-51 | tables without blank entries never make visible text blank |
| `I18nCache.ShowsTranslationOfSource` | frontend/i18n.jsx:64-91 | after any run of source writes, switches and observer callbacks in which no source write hits the cache, traditional mode shows the last source exactly and settled simplified mode its pure translation |
| `I18nCache.TablesKeepInk` | frontend/i18n.jsx:42-51 | the hypothesis that translation makes no visible text blank can be read off the tables |
| `I18nCache.WriteComesBackIff` | frontend/i18n.jsx:64-74 | in any reachable state a write comes back on the switch to traditional if and only if it is not the cached translation |
| `I18nCache.ConvertsAreBounded` | frontend/i18n.jsx:129-150 | for every translation function and every run, conversions are at most the writes of others and the restorations, plus one |
| `I18nCache.OneWriteAtMostOneConversion` | frontend/i18n.jsx:132-145 | one write from outside is answered by at most one write, however often the observer runs |
| `I18nCache.TwoCallbacksSettle` | frontend/i18n.jsx:132-145 | two deliveries of records settle simplified text, the second without a write |
| `I18nCache.Observed.Convert` | frontend/i18n.jsx:64-70 | afterwards no further conversion would write, at most one write was made, and a sound cell shows the translation of its source |
| `I18nCache.Observed.Restore` | frontend/i18n.jsx:71-73 | a sound cell shows its source again, after at most one write |
| `I18nCache.Observed.TranslateTree` | frontend/i18n.jsx:172-177 | after a switch a cell in step shows the translation of its source, or the source itself |
| `I18nCache.Observed.Callback` | frontend/i18n.jsx:132-145 | taking all records converts at most once, and drops them while the language variable is traditional |
| `VirtualTable.SameOnScreen` | frontend/page-alerts.jsx:541-559 | for every list and every scroll offset, the rows on screen and their places are those of the full list |
| `VirtualTable.ViewHeightIs` | frontend/page-alerts.jsx:545 | the viewport is as tall as its rows, but at least two rows and at most 560 |
| `VirtualTable.WindowIsSmallIff` | frontend/page-alerts.jsx:546-548 | at most 26 rows are drawn, however long the list is, if and only if the end of the window is not negative or leaves at most 26 rows |
| `VirtualTable.WindowIsInBounds` | frontend/page-alerts.jsx:546-547 | inside the content the window's ends are in order and within the list |
| `VirtualTable.EndIsNegativeIff` | frontend/page-alerts.jsx:547-548 | the end is negative exactly for offsets at least seven rows and one viewport above the content |
| `BudgetRollup.SectionsPartition` | frontend/page-erp.jsx:307-312 | over the three sections every budget is in exactly one group, once, and in the section of its own state |
| `BudgetRollup.GroupsPartition` | frontend/page-erp.jsx:692-713 | groups have distinct ids, hold only budgets of their key, and together hold every budget once |
| `BudgetRollup.SameGroupIff` | frontend/page-erp.jsx:696 | two budgets share a group exactly if they name the same cost centre, or none and the same shown name |
| `BudgetRollup.SectionIff` | frontend/page-erp.jsx:307-312 | closed budgets are archived, and of the others those to be closed or exceptional are under review |
| `BudgetRollup.CenterIff` | frontend/page-erp.jsx:715-716 | only a budget of the kind `center` is one; a missing kind is not |
| `BudgetRollup.GroupShowsItsCenter` | frontend/page-erp.jsx:698-707 | a group shows the cost centre of every budget in it, and without one the name they all show |
| `BudgetRollup.GroupShowsFirst` | frontend/page-erp.jsx:698-707 | a group stands where its first budget stands and has that one's code, and its currency or CNY |
| `BudgetRollup.SectionCounts` | frontend/page-erp.jsx:725-726 | in a group under review every budget is counted as pending or as an exception, in an active one none is |
| `BudgetRollup.DraftGroups` | frontend/page-erp.jsx:694-713 | reading the budgets into the map leaves for each key, in order of first appearance, its first budget and index, its distinct account names and its members |
| `BudgetRollup.AccountsAreNames` | frontend/page-erp.jsx:711-712 | a group lists exactly the names under which its budgets are listed, account name, else number, else a default, each once |
| `BudgetRollup.BuildGroups` | frontend/page-erp.jsx:693-734 | the groups come out in order of first appearance with their totals, counts and sorted children |
| `BudgetRollup.SortedCentersFirst` | frontend/page-erp.jsx:727-731 | the children are the centres and then the others, each in their order, and a permutation |
| `BudgetRollup.GroupListsCentersFirst` | frontend/page-erp.jsx:727-731 | the children a group shows are its centres and then its other budgets, each in the order of the list |
| `BudgetRollup.FirstIndexSortIsIdentity` | frontend/page-erp.jsx:733 | the final sort changes nothing |
| `BudgetRollup.GroupTotal` | frontend/page-erp.jsx:715-718 | a group's total of any field is the sum over its non-centre budgets, or over all when there are only centres |
| `BudgetRollup.GroupShowsTotals` | frontend/page-erp.jsx:715-724 | each of the four totals of a group adds up that field of the budgets that count in it |
| `BudgetRollup.RollupConserves` | frontend/page-erp.jsx:714-724 | over all groups each of the four fields adds up to the sum over the budgets that count: none is lost or counted twice |
| `BudgetRollup.Rollup` | frontend/page-erp.jsx:735-745 | the page holds the groups and the number of the budgets of each section, and the groups of all |
| `Contracts.CompatibleIff` | scripts/audit_frontend_api_contracts.py:142-154 | two templates match and mislead nowhere if and only if some concrete path instantiates both |
| `Contracts.MatcherIsExact` | scripts/audit_frontend_api_contracts.py:149-154 | without empty and literal `{}` segments, matching is having a common instance |
| `Contracts.LiteralBracesMislead` | scripts/audit_frontend_api_contracts.py:154 | a literal `{}` matches a segment with which it has no instance in common |
| `Contracts.ParamIff` | scripts/audit_frontend_api_contracts.py:42 | a parameter is a name without slash and closing brace, in braces |
| `Contracts.TextBeforeIff` | scripts/audit_frontend_api_contracts.py:179 | one text sorts before another if it is a proper beginning of it or has the smaller character where they first differ |
| `ContractReport.Group` | scripts/audit_frontend_api_contracts.py:172-174 | the dictionary holds, in order of discovery, the contracts of each method and path |
| `ContractReport.Audit` | scripts/audit_frontend_api_contracts.py:176-190 | both lists are sorted, no key has two rows, every discovered key has one, and each row holds its sources and matches, which are empty exactly in the missing ones |
| `ContractReport.LowerIff` | scripts/audit_frontend_api_contracts.py:182 | lower-casing a name replaces each capital letter by the small one of the same place and nothing else |
| `ContractReport.RowListsAnswering` | scripts/audit_frontend_api_contracts.py:179-190 | a row lists, in their order, exactly the paths of the endpoints that have an operation of its method in small letters and a template that agrees, and is missing if there are none |
| `ContractReport.RowsAreSorted` | scripts/audit_frontend_api_contracts.py:179 | the rows of a list come by method, and for one method by path |
| `ContractReport.EverySourceOnce` | scripts/audit_frontend_api_contracts.py:172-190 | every discovered contract is listed in exactly one row, as often as it was discovered |
| `ContractReport.ConnectedIffServed` | scripts/audit_frontend_api_contracts.py:179-190 | with well-spelled paths a contract's row is connected exactly if some endpoint has an operation of its name in small letters and shares a concrete path with it |

## Left out

- The server: settlement, ledgers and authorisation are not part of this model; only deduplication by company header and request id is assumed.
- React's scheduling: a handler or continuation is one atomic step, the references and the state they mirror are one value, and the assignment of the flag on each render repeats the value it has.
- Unmounting the assistant, its error line, its cards beyond their presence, its voice, and the page events it sends are not modelled; neither is the wording of messages beyond what the branches compare.
- The assistant's abort controllers: an aborted request is a reply that may come at any time.
- Storage failures: storage is assumed to work, so the fallback keys and ids of the `catch` branches are not modelled.
- Clocks, random ids and fresh names are parameters; the freshness of request ids is an assumption, while names of editions and temporary links may collide and then the installer raises.
- The installer's database lookup and the check that the tenant directory lies in its volume are not modelled, nor are parents of the editions directory, links inside bundles, a linked editions directory, and power loss.
- SHA-256, JSON parsing and printing are uninterpreted functions; decoding of chunks to characters has happened before the readers start, so the decoder's final flush is not modelled.
- The events that the JSON reader turns into callbacks: the model delivers the parsed events, and an error event is an event like any other.
- Method names and roles: the audit's methods are ASCII, where lower-casing is by letter; a message that is not the user's is the assistant's, as the code shows it.
- Amounts of budgets are real numbers, so rounding and unparsable numbers are not modelled; nor is the usage percentage.
- The parsed blocks and pieces are compared as data: the nodes, sizes and styles they are rendered as are not modelled, nor is the number of columns a table row is shown with.
- Regular expressions are scans proved equal to their patterns on characters that are Unicode scalar values.
- `simple_js_expression`, the scan of source files and the command line of the contract audit are not part of this model.
- The grouped alert lists and capped tables are left out as easy members beside the virtual table.
- The Chinese tables are a parameter: nothing is claimed about their entries beyond the stated hypotheses, and idempotence is neither assumed nor claimed.
- VirtualTable.WindowIsInBounds: is stated for offsets inside the content, which is where a browser keeps them apart from overscroll.
- Framing.ReadersAgreeIff: assumes that space around a text that parses does not change what it parses to, as is so for JSON.
