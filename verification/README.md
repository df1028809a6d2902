# Verified model of Dominion's chat sync, turn stream, Markdown parser, build journal and ports

Dominion is a browser app for talking to language models and for building games with them. This
project models the parts of it that decide what a person sees after networks drop, devices race and
texts are parsed, and proves what those parts guarantee.

* **Chat sync** (`ChatMerge`, `ChatLaws`, `MergeOrder`, `WireConvergence`, `DeviceConvergence`,
  `ChatPush`, `ServerRelay`, `ChatSync`, `ChatSyncLaws`, `ChatInFlight`, `ChatDrain`, `ChatSurvival`,
  `SyncClient`). A chat is five last-writer-wins registers (transcript, title, model, draft, forge),
  each with its own clock. Around the chats sit a push watermark per chat, a queue of unsent
  tombstones, and a loop of at most twelve rounds of forty. `ChatMerge.Chat` and `SyncClient.Client`
  are the objects the page mutates; `ChatSync` holds the functions that specify them; `ServerRelay` is
  the server's merge. The other modules prove when exactly two devices end with the same chat and when
  exactly merge order is irrelevant, that a push carries everything but pixels, which chats outlive an
  answer and with which content, the watermark invariant over every run, how fast the loop drains, and
  how deletes, edits and edits made while a request is on its way are settled.
* **The turn stream** (`TurnStream`, `TurnFrames`, `TurnRuns`, `AttachServer`). Frames of payloads and
  heartbeats arrive in arbitrary chunks; a line buffer feeds an event handler; `eventIndex` is the
  cursor a dropped turn resumes from. The main theorem is that, over any run of cuts, reattaches,
  replays from zero and compacted replies with or without a `reset`, the answer on screen stays the
  token text below the cursor if and only if every cut is safe. `AttachServer` joins token runs into
  stored rows and shows that all three kinds of answer of `handleChatAttach` are legal replies. The
  one-line `data:` form is a subset of section 9.2.6, "Interpreting an event stream", of the WHATWG
  HTML Standard.
* **The speech splitter** (`SpeechSplitter`). Greedy packing of sentences, with a hard wrap at word
  boundaries.
* **The Markdown parser** (`MarkdownInline`, `MarkdownLaws`, `MarkdownEscape`, `MarkdownBlocks`,
  `DocumentLaws`, `DocumentScan`, `DocumentText`, `MarkdownConstructs`, `DocumentConstructs`). Every regular expression is
  an explicit matcher. The dialect is close to CommonMark 0.31.2 with tables and strikethrough; where they
  differ the model follows the code.
* **The build journal** (`BuildJournal`, `JournalRuns`, `JournalFollow`, `BuildDigest`, `MoveTree`).
  Incremental reattach with record dedupe over runs that follow several jobs, with drops that arm
  reconnect timers, the fold of the journal into a digest, and the rows that are drawn from it.
* **The ports** (`ConsentPort`, `ReceiptLedger`). A consent-gated analytics queue and an idempotent
  receipt ledger, each proved against a reading of the whole call history.

`Sequences` and `Text` hold the shared facts about filtering, flattening, subsequences, trimming,
splitting and decimal numerals.

The code that changes state is a class or a method with a loop; each is proved equal to a
specification function, and the laws are lemmas about that function over every input, run or
reachable state.

## What turned out false, and the exact condition

* The block parser does not always terminate. A bullet or ordered line that its own item pattern
  rejects (its text holds U+2028 or U+2029) never advances: `DocumentLaws.AdvancesExactly`. For every
  document the parser gets stuck exactly where a one-pass scan hangs
  (`DocumentScan.ParserStopsWhereScanHangs`); for texts without tables it ends exactly when every
  such line lies inside a fence, by parity of the fence lines before it
  (`DocumentScan.TerminatesExactly`); `"- a\u2028b"` is an input that hangs
  (`SeparatorInBulletHangs`). The model reports that line as `Stuck` where the source would spin.
* Merging is not order independent in three families of inputs, one lemma each: clocks that tie
  (`MergeOrder.LaggingEditsDiverge`), a newest version that leaves out a field an older one changes
  (`AbsentModeDiverges`), and a local component without a clock (`MissingClockDiverges`).
  `MergeOrder.OrderIrrelevantExactly` shows that these are all.
* A device without a queued tombstone forgets a delete once it has obeyed it, so a version that
  arrives afterwards can bring the chat back: `ChatDrain.HolderOrderExactly`.
* The comment at `public/dominion-lenses.js:60-62` says replay and live tail agree because later
  events supersede earlier ones. They agree for stamped records (`JournalRuns.LiveTailEqualsReplay`);
  stamps are needed exactly for the entries a stream reaches and survives (`StampsNeededExactly`).
  Across jobs and idle resets the panel is right exactly when each reset leaves open only connections
  that track the emptied panel or have nothing new to deliver (`PanelRightExactly`); the page does not
  always see to that (`IdlePanelLeaks`, `StrayConnectionLeaks`). Without idle resets it does, as long as
  no job is opened anew while a timer for it is armed (`JournalFollow.FollowingStaysRight`).
* The comment at `public/dominion-lenses.js:230-231` says only `gone` clears the panel. In the code
  `gone` clears the followed job and keeps the events; `follow` and the idle branch of `sync` empty
  them. The model follows the code.
* The header of `gamefactorykit/ports.js` says a purchase succeeds and entitles. It fails to
  entitle exactly when an outside callback already used the next receipt id and the entitlement was
  revoked since: `ReceiptLedger.PurchaseEntitlesExactly`, `ForgedReceiptSpoilsPurchase`.
* A compacted reply to a dropped turn that is cut again before its cursor event can leave text and
  cursor out of step. With `reset` the text is wiped without rewinding the cursor; without it, one
  joined token counts as one event. A cut is safe exactly when the text shown is the token text below
  the cursor reached (`TurnStream.CutReplayExactly`, and `CutRebuildExactly`,
  `CutRebuildWithJobExactly`, `CutRebuildWithoutJobExactly` for rebuilds); for stored rows without a
  reset, exactly when the events that the cursor failed to count carry no text
  (`AttachServer.CutRowsExactly`). Over whole runs this is the exact condition for tokens to arrive
  exactly once (`TurnRuns.TokensExactlyOnce`); `JoinedTokensRepeat` is a run that ends at the end of
  the log with repeated text.
* Two devices that have merely received one another's edits through the server need not hold equal
  chats: pushes leave image pixels behind at an unchanged clock (`WireConvergence.PixelsBreakAgreement`).
  Given agreement they hold the same chat exactly when each has caught up with the other's
  (`JoinsMeetExactly`), and the same chat up to pixels in general (`JoinsMeetOnWireExactly`,
  `ServerRelay.PushAndPullConverge`).
* Strong, struck-out, emphasized and linked text survives escaping only in part: the lazy match closes
  one character early when the text ends in the mark itself, and an escaped star or bracket still ends
  an emphasis or a caption. The exact texts are in `MarkdownConstructs.StrongRoundTripExactly`,
  `DelRoundTripExactly`, `EmRoundTripExactly` and `LinkRoundTripExactly`.
* Escaping does not protect urls: `MarkdownEscape.EscapeRoundTripExactly` gives the exact texts
  that survive.
* An incoming version as recent as a pending chat takes its pending mark away although it was never
  pushed (`ChatSyncLaws.MergeSettlesExactly`), and an edit made while a request is on its way loses
  its pending mark exactly when the answer decides, overtakes or deletes the chat
  (`ChatInFlight.EditInFlightExactly`).

## Model

| member | source | states |
|---|---|---|
| `ChatMerge.TakeFields` | public/app.js:254-267 | the field loop of one component moves the register to the newer of the two and reports whether it took anything |
| `ChatMerge.Chat.TakeComponent` | public/app.js:254-277 | exactly one register of the chat object changes, to the result of the take |
| `ChatMerge.Chat.TakeTexts` | public/app.js:274-276 | title, model and draft are taken independently; any of the three counts as a change |
| `ChatMerge.Chat.MergeIncomingChat` | public/app.js:252-286 | the chat object becomes the merge of its five registers, trust flag, activity and `updatedAt`; a raised `updatedAt` alone reports no change |
| `ChatMerge.Chat.TouchChatComponent` | public/app.js:409-416 | the edited component's clock strictly grows and reaches the given time, `updatedAt` reaches the stamp and never falls, no other component moves |
| `ChatLaws.MergeAllIsJoin` | public/app.js:244-286 | folding any versions gives their join: every component is the newest one that occurs, the stamps are the maxima, trust is the disjunction |
| `ChatLaws.Converges` | public/app.js:244-286 | the same versions in any order and with any repeats end in the same chat |
| `MergeOrder.OrderIrrelevantExactly` | public/app.js:252-286 | for every local chat and every list of versions: all orders of merging agree if and only if, in each component, the newest offers agree, leave out nothing an older offer changes, and cannot be shut out by a raised `updatedAt` |
| `MergeOrder.RepeatsIrrelevant` | public/app.js:252-286 | under the same condition any order with any repeats gives the same chat |
| `MergeOrder.LaggingEditsDiverge` | public/app.js:411 | two edits whose wall clocks lag behind a chat tie, and each order of merging keeps another title |
| `MergeOrder.MissingClockDiverges` | public/app.js:244-248 | a component without a clock: a version with an old title and a late `updatedAt` shuts out a newer title in one order only |
| `MergeOrder.AbsentModeDiverges` | public/app.js:259 | a newest transcript without `lastMode` makes the two merge orders differ |
| `ChatLaws.EchoChangesNoComponent` | public/app.js:224-286 | merging a chat's own push back changes no register, for every chat whatever |
| `ChatLaws.PushStripsOnlyPixels` | public/app.js:225-228 | a push keeps every message and attachment name and carries no image bytes |
| `ChatLaws.MergeReportsExactly` | public/app.js:252-286 | a merge reports a change if and only if it changes more than `updatedAt` |
| `ChatPush.PushUnchangedExactly` | public/app.js:224-242 | for every chat: its push is the chat itself if and only if all stamps are set, the transcript is defined and free of pixels, and draft, tier and mode are there |
| `ChatPush.PushIsAlike` | public/app.js:224-242 | a complete chat and its push have the same title, model, draft, mode, tier, stamps and messages, and differ in pixels only |
| `ChatPush.WireSameExactly` | public/app.js:224-242 | two chats push the same component if and only if they differ in pixels only |
| `ChatPush.AdoptedPushIsAlike` | public/app.js:297-309 | for every chat, adopting its push gives what adopting the chat itself gives, but for pixels |
| `ChatPush.AdoptedIsShown` | public/app.js:297-309 | an adopted chat has messages, draft, tier and mode, and without a title it is a new chat |
| `ChatPush.MergedPushIsAlike` | public/app.js:252-286 | the same for merging it into any chat |
| `ChatPush.PushReachesDevice` | public/app.js:290-316 | a device that receives a push holds what it would hold had the chat itself reached it, but for pixels, and the sender's chat if it had none |
| `ChatLaws.EditYieldsExactly` | public/app.js:409-416 | an edit is replaced by a version if and only if that version's component clock is beyond the edit's stamp and it supplies a field |
| `ChatLaws.StaleVersionLoses` | public/app.js:256-266 | no version at or below the pre-edit clock overwrites the edit, and the edit touches no other register |
| `DeviceConvergence.AdoptedIsFaithful` | public/app.js:297-309 | adopting a fully defaulted version as a new chat keeps it unchanged |
| `DeviceConvergence.ArrivalsJoin` | public/app.js:290-316 | a list of versions of an unknown chat, folded in one by one, leaves their join as the new first chat and touches nothing else |
| `DeviceConvergence.DevicesConverge` | public/app.js:290-316 | two devices without the chat, each sent any versions of it, end with the same chat if and only if each has been sent something as new as the other's chat in every component, stamp and flag |
| `DeviceConvergence.HoldsJoinOfSeen` | public/app.js:252-286 | however local edits and arrivals interleave, the chat is the join of everything seen, its own edits included |
| `DeviceConvergence.DeviceHoldsChat` | public/app.js:290-316 | the chat list of a device takes its chat through exactly those happenings |
| `DeviceConvergence.EditingDevicesConverge` | public/app.js:252-316 | two devices edit a chat and receive versions of it, merged by others or not, in any order: they hold the same chat if and only if each has seen something as new as the other's chat |
| `DeviceConvergence.EditingDevicesConvergeOnWire` | public/app.js:224-316 | the same up to image pixels, for versions that agree only on the wire |
| `WireConvergence.JoinsMeetExactly` | public/app.js:244-286 | the joins of any two collections of agreeing versions are one chat if and only if each collection has caught up with the other join |
| `WireConvergence.JoinsMeetOnWireExactly` | public/app.js:224-286 | the same up to the pixels a push leaves behind |
| `WireConvergence.PixelsBreakAgreement` | public/app.js:224-242 | a chat whose transcript holds an image disagrees with its own push, though the two agree on the wire |
| `WireConvergence.PushCommutesWithMerge` | public/app.js:224-286 | pushing a merge carries the registers of merging the pushes |
| `ServerRelay.ServerMergesLikeDevice` | chatsync.mjs:136-203 | the server merges every component as a device does if and only if its transcript guard has nothing to object to |
| `ServerRelay.PushAndPullConverge` | chatsync.mjs:136-203 | two devices that edited anything hold the same components, up to pixels, after both have pushed and pulled |
| `ServerRelay.PushAndPullShowSame` | chatsync.mjs:136-203 | they then show the same title, model, draft and forge, and transcripts that differ in pixels only |
| `ServerRelay.TranscriptEditIsWelcome` | public/app.js:409-416 | an edit of the transcript passes the server's guard whatever is stored |
| `ServerRelay.MergedIsBounded` | chatsync.mjs:186-202 | what the server stores never has a component clock beyond its `updatedAt` |
| `SyncClient.Client.FindChat` | public/app.js:295 | the found index is the first chat with that id, or the length |
| `SyncClient.Client.IsDominated` | public/app.js:294 | true exactly when a queued tombstone of that id is at least as recent |
| `SyncClient.Client.MergeAt` | public/app.js:311 | merging into one chat object changes that chat only |
| `SyncClient.Client.MergeOrAdopt` | public/app.js:295-314 | a known chat object is merged in place, an unknown one is put first; no other chat changes |
| `SyncClient.Client.MergeOneIncoming` | public/app.js:292-316 | skips nameless and dominated versions, else merges and raises the watermark |
| `SyncClient.Client.KeepOutside` | public/app.js:356 | the chat list keeps exactly the chats outside the ids, in order, as the same objects |
| `SyncClient.Client.DeleteOneIncoming` | public/app.js:317-327 | an incoming delete removes chat and watermark unless the chat is strictly newer |
| `SyncClient.Client.FoldIncoming` | public/app.js:290-329 | both loops together, and whether anything moved |
| `SyncClient.Client.MarkPushed` | public/app.js:348-351 | each named chat that exists gets its current `updatedAt` as watermark |
| `SyncClient.Client.PendingChats` | public/app.js:338 | exactly the chats whose watermark differs from `updatedAt`, in list order |
| `SyncClient.Client.PrepareRequest` | public/app.js:338-343 | the first 40 pending chats, stripped for the wire, and the first 40 tombstones |
| `SyncClient.Client.Settle` | public/app.js:348-360 | accepted chats are marked, chats refused as deleted are dropped with their watermarks, sent tombstones leave the queue |
| `SyncClient.Client.FoldAnswer` | public/app.js:348-371 | settling and folding in, with the exact verdict whether anything changed |
| `SyncClient.Client.MintIfEmpty` | public/app.js:371-374 | a new chat appears exactly when a change left none |
| `SyncClient.Client.ApplyAnswer` | public/app.js:348-382 | accepts, refused deletes, sent tombstones, incoming changes, remaining refusals and the replacement chat, in that order |
| `SyncClient.Client.SyncOnce` | public/app.js:338-384 | a failed request changes nothing and stops; an answered one is applied, and the loop goes on exactly while something is pending |
| `SyncClient.Client.SyncNow` | public/app.js:331-387 | the twelve-round loop ends in the state of the round function iterated until it settles or fails |
| `SyncClient.Client.RenameChat` | public/app.js:609 | a rename is an edit of the title component with the trimmed text, an empty text keeping the old title |
| `SyncClient.RenameExactly` | public/app.js:609 | a trimmed title of up to sixty characters is kept whole, a longer one shortened to sixty, a blank one ignored |
| `SyncClient.Client.DeleteChat` | public/app.js:604-607 | queues the tombstone, drops chat and watermark, never leaves the list empty |
| `ChatSyncLaws.MergeOneKeeps` | public/app.js:292-316 | folding in one version keeps unique ids, watermarks and clock bounds, and makes no synced chat pending |
| `ChatSyncLaws.AnsweredKeeps` | public/app.js:348-367 | a whole answer keeps the invariant; every accepted or rejected chat is settled; nothing becomes pending |
| `ChatSyncLaws.ActKeeps` | public/app.js:290-387 | edits, new chats, deletes, arrivals and rounds each keep the watermark invariant |
| `ChatSyncLaws.RunKeepsWatermarks` | public/app.js:290-416 | the watermark invariant holds after every run |
| `ChatSyncLaws.MergeNeverUnsettles` | public/app.js:315 | whatever arrives, the pending chats afterwards were pending before |
| `ChatSyncLaws.MergeSettlesExactly` | public/app.js:315 | a pending chat loses its mark to an incoming version if and only if that version is as recent as the chat |
| `ChatSyncLaws.EditMakesPendingExactly` | public/app.js:409-416 | an edit makes a synced chat pending if and only if its stamp passes `updatedAt` |
| `ChatInFlight.StaysPendingExactly` | public/app.js:338-367 | a pending chat is pending after a whole answer if and only if the answer does not decide it, no undominated version in it is as recent, and no tombstone in it is as recent |
| `ChatInFlight.SentBeforeEdit` | public/app.js:338-343 | what a request carries for a chat is the version from before a later edit, below that edit's stamp if and only if the component had a clock or `updatedAt` was below the stamp |
| `ChatInFlight.EditInFlightExactly` | public/app.js:338-367 | an edit made between request and answer is still waiting to be pushed if and only if it made the chat pending and the answer neither decides, overtakes nor deletes the chat |
| `ChatDrain.SentCount` | public/app.js:338 | a round pushes min(40, pending) distinct pending chats |
| `ChatDrain.RoundDrains` | public/app.js:338-384 | a completely answered round settles a full batch of each kind, and the sum strictly decreases |
| `ChatDrain.EmptyingRoundMints` | public/app.js:374 | a round that empties the list leaves exactly the minted chat, pending |
| `ChatDrain.RoundsDrain` | public/app.js:337-385 | n rounds drain every state with at most 40n pending chats and 40n tombstones |
| `ChatDrain.TwelveRoundsDrain480` | public/app.js:337 | one call drains 480 of each |
| `ChatDrain.DeleteAndEditAgree` | public/app.js:294-321 | deleter and holder agree that the chat lives if and only if the version is newer than the delete |
| `ChatDrain.DeleterOrderIrrelevant` | public/app.js:290-329 | on the deleting device the verdict is the same in both message orders |
| `ChatDrain.HolderOrderExactly` | public/app.js:317-327 | on a device without a tombstone the two orders agree if and only if the local copy or the version is newer than the delete |
| `ChatDrain.DominatedNeverReturns` | public/app.js:294 | no incoming list re-adds a chat that a queued tombstone dominates |
| `ChatSurvival.SurvivesExactly` | public/app.js:345-367 | for every answer: a chat exists afterwards if and only if it was there and not refused as deleted or a version of it landed, and no tombstone is as recent as the newest of what remained |
| `ChatSurvival.SurvivorIsMerged` | public/app.js:345-367 | a surviving chat is its merge with the versions that landed, in their order |
| `ChatSurvival.RefusalLosesExactly` | public/app.js:353-367 | a chat the answer brings nothing about is lost if and only if a refusal says "deleted", and is else left as it was |
| `ChatSurvival.TombstonesWaitExactly` | public/app.js:339-360 | a queued tombstone stays if and only if its chat is named by none of the 40 that were sent |
| `ChatSurvival.MintsExactly` | public/app.js:370-374 | a blank chat appears if and only if a round leaves none and there was one before or the answer stirred something |
| `ChatSurvival.RoundLeavesAChat` | public/app.js:370-374 | whatever the answer, a round that starts with a chat ends with one |
| `ChatSurvival.SyncLeavesAChat` | public/app.js:337-385 | so does a whole sync |
| `ChatSurvival.ForgetTakesOne` | public/app.js:582-605 | deleting takes exactly one chat away and leaves one to show |
| `ChatSurvival.DeleterAndHolderAgree` | public/app.js:294-321 | after a delete, deleter and holder both have the chat if and only if the version is newer than this delete and every earlier one that still waits |
| `TurnStream.TurnReader.ProcessEvent` | public/app.js:1769-1786 | the effect of `job`, `reset`, `cursor` and `token` events on text and cursor |
| `TurnStream.TurnReader.ProcessLine` | public/app.js:1985-1996 | a data line that parses is handled once and advances the cursor unless it is framing |
| `TurnStream.TurnReader.ProcessLines` | public/app.js:1985-1997 | the lines of one read are dispatched in order, each once |
| `TurnStream.TurnReader.ReadSse` | public/app.js:1980-1999 | the state after a response depends only on the whole text received, and the buffer holds its last incomplete line |
| `TurnFrames.DataLineDecodes` | public/app.js:1987-1990 | the payload of a data line, without the whitespace around it, is what is decoded, for any whitespace around the line |
| `TurnFrames.EventOfLineExactly` | public/app.js:1987-1990 | a line carries an event if and only if it is whitespace, "data:" and a payload that decodes to it |
| `TurnFrames.SpelledEvents` | server.mjs:9545-9562 | frames whose payloads decode to events deliver exactly these, whatever heartbeats stand between them |
| `TurnFrames.CutFramesDeliverPrefix` | public/app.js:1980-1999 | a stream of frames cut anywhere delivers a prefix of its events |
| `TurnStream.TurnReader.PrepareReattach` | public/app.js:2217-2232 | a kept session resumes from its cursor, a lost one from an empty text and 0 |
| `TurnStream.ChunkingIndependence` | public/app.js:1983-1984 | every way of cutting a text into chunks gives the same lines and the same rest |
| `TurnStream.CutDeliversPrefix` | public/app.js:1983-1987 | a response cut anywhere, even inside a line, delivers a prefix of its events |
| `TurnStream.RebuildSyncs` | public/app.js:1774-1785 | a complete reset, replay and cursor block leaves text and cursor in step at the cursor it names |
| `TurnRuns.VisitSyncsExactly` | public/app.js:2214-2233 | one reattach, answered by a log tail or a compacted reply with or without `reset` and cut anywhere, keeps the text equal to the tokens below the cursor if and only if the cut is safe |
| `TurnRuns.TokensExactlyOnce` | public/app.js:1980-1999 | over every run of reattaches with arbitrary cuts no token is ever lost or repeated if and only if every cut inside a compacted reply is safe |
| `TurnRuns.FreshReplayHeals` | public/app.js:2217-2228 | a fresh replay that is cut safely repairs any turn, however far out of step |
| `TurnRuns.FinishedTurnIsWhole` | public/app.js:2070-2080 | from the first byte of a turn: a cursor at the end of the log means the whole answer is shown |
| `TurnRuns.UncutTurnIsWhole` | public/app.js:1980-1999 | frames whose payloads decode to the log, received uncut, show the whole answer with the cursor at its end |
| `TurnRuns.JoinedTokensRepeat` | server.mjs:9553-9562 | a run whose cut falls behind a joined token reaches the end of the log with text that repeats for good |
| `TurnStream.CutReplayExactly` | public/app.js:1769-1786 | a compacted reply, with or without `reset`, may be cut before its cursor event if and only if the text shown is then the token text below the cursor reached |
| `TurnStream.CutRebuildExactly` | public/app.js:1774-1785 | a rebuild with any replay, compacted or not, may be cut before its cursor if and only if the replayed tokens are those below the cursor they led to |
| `TurnStream.CursorCountsFromLastJob` | public/app.js:1769-1785 | that cursor counts from the last replayed job event, or on from the old cursor when there is none |
| `TurnStream.CutRebuildWithJobExactly` | public/app.js:1774-1780 | a verbatim replay from the job event may be cut after j events if and only if j > 0 or nothing was shown |
| `TurnStream.CutRebuildWithoutJobExactly` | public/app.js:1774-1785 | a verbatim replay without the job event may be cut after j events if and only if the skipped log entries carry no text |
| `TurnStream.CursorAdoptedExactly` | public/app.js:1785 | the 32-bit conversion adopts a cursor unchanged if and only if it fits |
| `AttachServer.CoalesceEvents` | chatjobs.mjs:32-48 | the loop with its open run of tokens joins a batch into rows |
| `AttachServer.CoalesceCovers` | chatjobs.mjs:32-48 | the rows of a batch span it in order, leave out only heartbeats, and each token row carries exactly the text it spans |
| `AttachServer.CoalesceDropsHeartbeats` | chatjobs.mjs:41-43 | no heartbeat is ever stored |
| `AttachServer.FlushCovers` | server.mjs:9442-9448 | every flush keeps the stored rows covering the log up to the recorded count |
| `AttachServer.CoversTokens` | chatjobs.mjs:126-127 | rows that cover a part of the log carry exactly its tokens |
| `AttachServer.AnswersAreLegal` | server.mjs:9545-9585 | for every log, every division into flushed batches and every cursor up to the recorded count, all three kinds of answer are legal replies |
| `AttachServer.ResetsExactly` | server.mjs:9553-9575 | the page is wiped if and only if the cursor fell off the tail of a job in memory or lies inside a stored row of a forgotten one; the log is sent as it is if and only if the cursor lies in the tail |
| `AttachServer.CutRowsExactly` | server.mjs:9553-9562 | stored rows without a reset may be cut if and only if the events the cursor failed to count carry no text |
| `SpeechSplitter.Pack` | public/app.js:3788-3794 | the packing loop forms the greedy groups, emits each trimmed, and says what the pieces say |
| `SpeechSplitter.GreedyIsGreedy` | public/app.js:3788-3794 | those groups lose nothing, stay within the limit unless one piece alone is longer, and close only when the next piece does not fit |
| `SpeechSplitter.HardWrap` | public/app.js:3775-3785 | short text is untouched; longer text gives exactly its greedily packed words, each part fits or is a single word, and the parts say what the text says |
| `SpeechSplitter.WrapAll` | public/app.js:3795 | the chunks are exactly the nonblank wrapped parts, in order, and say what the chunks before wrapping say |
| `SpeechSplitter.SplitForSpeech` | public/app.js:3786-3796 | the chunks are exactly the packed, trimmed and wrapped sentences; what is spoken is the text's own characters and the stops behind them, in order, none lost or repeated; every chunk is nonempty and at most 900 long or one word |
| `SpeechSplitter.SentencesConserve` | public/app.js:3788 | the sentence pattern skips only stops and newlines |
| `SpeechSplitter.SentencesKeepExactly` | public/app.js:3788 | the sentences hold exactly the text with the stops and newlines that directly follow it, and everything if there is no text |
| `SpeechSplitter.PiecesConserve` | public/app.js:3777 | splitting at whitespace with the separators kept loses nothing |
| `SpeechSplitter.PiecesAreUniform` | public/app.js:3777 | every piece is all word or all whitespace |
| `MarkdownInline.AddText` | public/dominion-markdown.js:12-17 | the reader sees exactly the added text at the end, and a list without empty or neighbouring texts stays so |
| `MarkdownInline.FirstClose` | public/dominion-markdown.js:41 | the lazy match closes at the first possible position |
| `MarkdownInline.Doubled` | public/dominion-markdown.js:41-48 | a match opens with the doubled mark before a non-space and closes with it after one |
| `MarkdownInline.Enclosed` | public/dominion-markdown.js:34-62 | a match is a nonempty run of allowed characters between its two delimiters |
| `MarkdownInline.ParseStep` | public/dominion-markdown.js:26-90 | one iteration emits and consumes what the first matching pattern says |
| `MarkdownInline.ParseAt` | public/dominion-markdown.js:24-90 | the loop body moves strictly forward, and what was emitted plus what is left stays the whole |
| `MarkdownInline.ParseInline` | public/dominion-markdown.js:19-93 | the index loop produces the joined tokens of the whole source, for every text |
| `MarkdownInline.CoalesceVisible` | public/dominion-markdown.js:12-17 | joining neighbouring texts changes nothing that is shown |
| `MarkdownLaws.NothingInvented` | public/dominion-markdown.js:19-93 | for every text the visible text is a subsequence of the source |
| `MarkdownLaws.NormalForm` | public/dominion-markdown.js:12-93 | at every level no empty text, no adjacent texts, no empty container; nonempty source, nonempty list |
| `MarkdownEscape.EscapeRoundTripExactly` | public/dominion-markdown.js:28-90 | escaping and parsing gives the text back if and only if it holds no linkable url |
| `MarkdownEscape.PlainTextSurvives` | public/dominion-markdown.js:28-32 | every text without a url scheme survives escaping and parsing |
| `MarkdownConstructs.StrongRoundTripExactly` | public/dominion-markdown.js:41-46 | escaped text between doubled stars comes back as exactly one strong token if and only if it is nonempty, has no whitespace at its ends, does not end in a star and holds no url the parser links |
| `MarkdownConstructs.DelRoundTripExactly` | public/dominion-markdown.js:48-53 | the same for doubled tildes and strikethrough |
| `MarkdownConstructs.EmRoundTripExactly` | public/dominion-markdown.js:62-67 | escaped text between stars comes back as exactly one emphasis if and only if it is a nonempty line without stars and without a url the parser links |
| `MarkdownConstructs.CodeRoundTripExactly` | public/dominion-markdown.js:34-39 | backticks give a text back as code if and only if it is a nonempty line without backticks |
| `MarkdownConstructs.BackslashExactly` | public/dominion-markdown.js:28-32 | a backslash makes a character text if and only if it is one of the twelve |
| `MarkdownConstructs.TitledLinkRoundTrip` | public/dominion-markdown.js:55-60 | an escaped caption, an href and a title come back as one link with that title |
| `MarkdownConstructs.AutolinkRoundTrip` | public/dominion-markdown.js:69-74 | a url in angle brackets is one link to itself |
| `MarkdownConstructs.BareUrlRoundTrip` | public/dominion-markdown.js:76-86 | a bare url is one link to itself without its trailing punctuation, which follows as text |
| `MarkdownConstructs.LinkRoundTripExactly` | public/dominion-markdown.js:55-60 | an escaped caption and an href come back as exactly one link if and only if the caption is a nonempty line without closing brackets and linked urls, and the href is nonempty without whitespace and closing parentheses |
| `MarkdownConstructs.QuoteRoundTrip` | public/dominion-markdown.js:180-188 | quoting any lines, indented by up to three spaces, with or without a space behind the mark, gives one quote whose content is the inline parse of those lines |
| `MarkdownConstructs.HeadingCapturesExactly` | public/dominion-markdown.js:138 | the heading pattern captures the whole text after the hashes if and only if that is one character or does not end in whitespace or a hash |
| `MarkdownConstructs.HeadingRoundTrip` | public/dominion-markdown.js:138-143 | hashes, indented by up to three spaces, a space and such a text parse to one heading of that level with that text |
| `DocumentConstructs.ParagraphExactly` | public/dominion-markdown.js:190-194 | lines are one paragraph with the inline parse of all of them if and only if no earlier branch takes the first and no later line starts a block |
| `DocumentConstructs.ListRoundTrip` | public/dominion-markdown.js:167-178 | marks of one kind, each with a text, are one list with the inline parse of every text in order |
| `DocumentConstructs.TableRoundTrip` | public/dominion-markdown.js:151-165 | a header, alignments and rows of cells come back as one table with these alignments and the inline parse of every cell |
| `DocumentConstructs.DividerExactly` | public/dominion-markdown.js:101-104 | a divider row makes a table if and only if it has two columns or more |
| `DocumentConstructs.RuleExactly` | public/dominion-markdown.js:100 | dashes, stars or underscores with only whitespace behind them are a rule if and only if they are three or more |
| `DocumentConstructs.LanguageKept` | public/dominion-markdown.js:128-136 | the language of a fence is kept, up to thirty characters |
| `DocumentConstructs.IndentExactly` | public/dominion-markdown.js:95-100 | marks may be indented by up to three spaces and no more, fences by any number |
| `DocumentConstructs.InterruptsExactly` | public/dominion-markdown.js:105-107 | a line interrupts a paragraph if and only if it is blank, is a heading, or opens another block in the block loop |
| `DocumentConstructs.HeadingInterrupts` | public/dominion-markdown.js:96-107 | a heading that the block loop opens interrupts a paragraph too, unless it is bare hashes |
| `MarkdownBlocks.CollectWhile` | public/dominion-markdown.js:132-193 | the inner loops stop at the first line that fails their test and keep the lines before it |
| `MarkdownBlocks.ParseAll` | public/dominion-markdown.js:152 | mapping the inline parser keeps number and order of the cells |
| `MarkdownBlocks.ParseRows` | public/dominion-markdown.js:157-162 | each collected line becomes one row of inline cells |
| `MarkdownBlocks.ParseFence` | public/dominion-markdown.js:128-136 | the body up to the closing fence, which is consumed |
| `MarkdownBlocks.ParseTable` | public/dominion-markdown.js:151-165 | header, alignments and rows up to the first line without a bar |
| `MarkdownBlocks.ParseList` | public/dominion-markdown.js:167-178 | the items up to the first line the item pattern rejects |
| `MarkdownBlocks.ParseQuote` | public/dominion-markdown.js:180-188 | the run of quote lines without their markers |
| `MarkdownBlocks.ParseParagraph` | public/dominion-markdown.js:190-194 | the lines up to the next that starts a block |
| `MarkdownBlocks.Parse` | public/dominion-markdown.js:116-198 | the block loop yields the blocks with the lines each came from, or the line it never leaves |
| `DocumentLaws.AdvancesExactly` | public/dominion-markdown.js:167-178 | an iteration fails to advance if and only if a list line is rejected by its own item pattern |
| `DocumentLaws.StuckExactly` | public/dominion-markdown.js:116-198 | the loop gets stuck at a line if and only if it reaches it and that line stutters |
| `DocumentScan.ParserStopsWhereScanHangs` | public/dominion-markdown.js:116-198 | for every document, tables and fences included, the nested block loops get stuck at exactly the line at which a one-pass scan of six modes hangs |
| `DocumentLaws.StallingNeedsTerminator` | public/dominion-markdown.js:98-99 | only a line with a line terminator inside can stall |
| `DocumentScan.PlainTextTerminates` | public/dominion-markdown.js:116-198 | every text without U+2028 and U+2029 is parsed to its end |
| `DocumentScan.TerminatesExactly` | public/dominion-markdown.js:116-198 | for every text without tables the parser ends if and only if each stalling line has an odd number of fence lines before it |
| `DocumentScan.NoStallingTerminates` | public/dominion-markdown.js:116-198 | every text without a stalling line is parsed to its end |
| `DocumentScan.SeparatorInBulletHangs` | public/dominion-markdown.js:167-178 | one concrete text, a bullet with U+2028, on which the loop never ends |
| `DocumentLaws.LinesConserved` | public/dominion-markdown.js:116-198 | block spans in order, without overlap, and the blank lines outside them are all the lines |
| `DocumentLaws.LinesHoldNoBreaks` | public/dominion-markdown.js:117 | the lines of a text hold no line feed or carriage return and only characters of the text |
| `DocumentLaws.LineEndingsSeparate` | public/dominion-markdown.js:117 | a line feed, a carriage return or both separate the lines of the text before from those of the text after |
| `DocumentLaws.FenceRoundTripExactly` | public/dominion-markdown.js:128-136 | fencing any text and parsing returns it unchanged as one code block if and only if it holds no carriage return and none of its lines is a fence |
| `DocumentText.BlockInventsNothing` | public/dominion-markdown.js:128-194 | what one block shows is a subsequence of the lines it came from |
| `DocumentText.DocumentInventsNothing` | public/dominion-markdown.js:116-198 | what a document shows is a subsequence of its text |
| `BuildDigest.AddPlan` | public/dominion-lenses.js:72-74 | the loop over a plan adds rows for new ids only |
| `BuildDigest.RunDigest` | public/dominion-lenses.js:63-104 | the one-pass reducer is the fold of the event step over the journal |
| `BuildDigest.CostIsTotal` | public/dominion-lenses.js:93 | the cost is the sum over the cost events |
| `BuildDigest.CostIsAdditive` | public/dominion-lenses.js:93 | the cost adds up over any cut of the journal |
| `BuildDigest.QuestionIsTheOpenOne` | public/dominion-lenses.js:95-96 | a question is shown if and only if it is the last one asked and not answered since |
| `BuildDigest.FileFromLastTouch` | public/dominion-lenses.js:86-91 | the whole entry of a file is decided by the last event about it and the size of the last rewrite before |
| `BuildDigest.FileShowsItsLatestDiff` | public/dominion-lenses.js:86-91 | the last diff after the last rewrite is shown, and a rewrite clears it |
| `BuildDigest.PlanOnlyAdds` | public/dominion-lenses.js:72-74 | a plan never alters a move already present and adds its first entry for each new id |
| `BuildDigest.MovesKeepFirstAppearanceOrder` | public/dominion-lenses.js:70-85 | the move ids are the ids the journal names, each once, in order of first appearance |
| `BuildDigest.FirstOccurrencesMeaning` | public/dominion-lenses.js:73-78 | first occurrences: same members, no repeats, original order |
| `BuildDigest.MoveShowsLastValues` | public/dominion-lenses.js:70-85 | a move's state, model, class, reason, title and why are the last non-empty values the journal gives |
| `BuildDigest.MoveFromLastUpdate` | public/dominion-lenses.js:76-85 | the message is that of the last update, even an empty one, and the file count the last one given |
| `BuildDigest.FilesFromFirstMention` | public/dominion-lenses.js:72-77 | the files are those of the plan that first mentions the move, and none if an update does |
| `BuildDigest.TitleIsTheLast` | public/dominion-lenses.js:71 | the title is the last non-empty title of a plan |
| `BuildDigest.StartIsTheLast` | public/dominion-lenses.js:69 | start time and workspace are those of the last job event |
| `BuildDigest.ChecksAndSnapshotsInOrder` | public/dominion-lenses.js:92-94 | checks and snapshots are collected in order, each once |
| `BuildDigest.CreditsAndInterruption` | public/dominion-lenses.js:93-99 | credits add up, and the run counts as interrupted if and only if some terminal event says so |
| `BuildDigest.OutcomeIsTheLast` | public/dominion-lenses.js:97-98 | outcome and end time are those of the last terminal event |
| `BuildJournal.BuildViewer.Follow` | public/dominion-lenses.js:233-253 | a new job closes the newest connection, empties the panel and attaches from 0; the same job changes nothing |
| `BuildJournal.BuildViewer.AttachStream` | public/dominion-lenses.js:257-321 | attaches only for the followed job, from the number of events held |
| `BuildJournal.BuildViewer.OnMessage` | public/dominion-lenses.js:262-304 | dedupe by record, append, close on a terminal event, forget the job on gone |
| `BuildJournal.BuildViewer.OnError` | public/dominion-lenses.js:312-319 | closes the connection and retries exactly when it was open and had not ended |
| `JournalRuns.PanelRightExactly` | public/dominion-lenses.js:233-337 | for every run of followed jobs, idle resets, drops, overlaps and resends: at every point and whatever the network does next the panel is the beginning of the followed job's journal, if and only if each reset leaves open only connections that track the emptied panel or have nothing new to deliver |
| `JournalRuns.NetworkStaysInStep` | public/dominion-lenses.js:257-321 | drops, resends, overlapping reattaches and deliveries keep the page in step |
| `JournalRuns.JournalPrefix` | public/dominion-lenses.js:233-321 | after such a run the page holds a duplicate-free prefix of the journal, and cost and digest of that prefix |
| `JournalRuns.CaughtUpShowsAll` | public/dominion-lenses.js:262-303 | an open connection at the end of the journal means all of it is shown |
| `JournalRuns.ReplayDeliversAll` | public/dominion-lenses.js:257-304 | one uninterrupted connection delivers the rest of the journal |
| `JournalRuns.LiveTailEqualsReplay` | public/dominion-lenses.js:60-62 | a run with any cuts that got everything shows the digest of one uninterrupted replay |
| `JournalRuns.StampsNeededExactly` | public/dominion-lenses.js:274-280 | for distinct stamps, every run of drops, timers, resends and overlaps keeps the panel right if and only if every entry that a stream reaches and survives is stamped |
| `JournalRuns.IdlePanelLeaks` | public/dominion-lenses.js:324-333 | the idle reset leaves the connection open, and the next entry lands alone in the emptied panel |
| `JournalRuns.StrayConnectionLeaks` | public/dominion-lenses.js:318-333 | a reopened job and a late timer let an old connection write into the next job's panel |
| `JournalFollow.FollowingStaysRight` | public/dominion-lenses.js:233-321 | in every run without idle resets that opens no job anew while its timer is armed, only the newest connection is ever open, it streams the followed job, and the panel is right whatever the network does |
| `JournalFollow.VanishedJobReopens` | public/dominion-lenses.js:264-271 | after the server disowned a job, following it again opens a new stream from the start |
| `MoveTree.ParentsHaveNoParent` | public/dominion-lenses.js:112-115 | nesting depth is at most one |
| `MoveTree.ParentOfExactly` | public/dominion-lenses.js:112-115 | exactly the ids "tg-", digits, "-" and anything have a parent, and it is "tg-" and the digits |
| `MoveTree.DoneLeavesExactly` | public/dominion-lenses.js:129-137 | a move counts as done if and only if its state says so and no other move has it as parent |
| `MoveTree.MoveChildren` | public/dominion-lenses.js:116-126 | the map holds exactly the parents with present children, each with its children in move order |
| `MoveTree.MoveLeaves` | public/dominion-lenses.js:129-137 | exactly the moves without a present child, in order |
| `MoveTree.EveryMoveShownOnce` | public/dominion-lenses.js:665-733 | the top-level rows and their child rows are all the moves, each once |
| `MoveTree.ChildrenFollowParents` | public/dominion-lenses.js:665-733 | a row is a top row, or stands under its parent with only siblings in between |
| `MoveTree.DigestRowsShownOnce` | public/dominion-lenses.js:665-733 | the same for the digest of every journal |
| `MoveTree.Percent` | public/dominion-lenses.js:417 | a whole number nearest to the percent done, at a half either neighbour, capped at 99, and 0 before there is a plan |
| `MoveTree.NearestIsUnique` | public/dominion-lenses.js:417 | two whole numbers are nearest only at a half, and are then neighbours |
| `MoveTree.AnnounceProgress` | public/dominion-lenses.js:413-417 | done and total count the leaves of any journal, and the announced percent is the capped percent of these two |
| `ConsentPort.Ports.Track` | gamefactorykit/ports.js:47-55 | keeps the port equal to the reading of its history extended by this call |
| `ConsentPort.Ports.GrantConsent` | gamefactorykit/ports.js:35-39 | the same for a grant, which flushes once |
| `ConsentPort.Ports.RevokeConsent` | gamefactorykit/ports.js:40-43 | the same for a revoke |
| `ConsentPort.Ports.ClearPending` | gamefactorykit/ports.js:58 | the same for the analytics port's own revoke |
| `ConsentPort.QueueFromHistory` | gamefactorykit/ports.js:33-59 | consent is the last grant or revoke; granted means an empty queue; denied means the last min(200, k) of the k events since the last clear |
| `ConsentPort.SinkFromHistory` | gamefactorykit/ports.js:33-59 | the sink is exactly the delivered events in track order, each once |
| `ConsentPort.SinkCallsAreDelivered` | gamefactorykit/ports.js:35-54 | a tracked event is in the sink if and only if consent stood, or fewer than 200 further tracks and then a grant followed |
| `ConsentPort.SinkCallsIncrease` | gamefactorykit/ports.js:38-50 | the sink never reorders or repeats |
| `ConsentPort.RevokedStaysUndelivered` | gamefactorykit/ports.js:40-43 | what is undelivered at a revoke stays undelivered in every continuation |
| `ReceiptLedger.MonetizationPort.ApplyOffered` | gamefactorykit/ports.js:67-74 | applies a well-formed receipt once and reports whether it did |
| `ReceiptLedger.MonetizationPort.BuyProduct` | gamefactorykit/ports.js:80-86 | mints the next numbered receipt and applies it, unless disabled |
| `ReceiptLedger.MonetizationPort.ReceiveCallback` | gamefactorykit/ports.js:89 | applies an offered receipt through the same step |
| `ReceiptLedger.MonetizationPort.RestorePurchase` | gamefactorykit/ports.js:90-94 | entitles again from the last receipt, if there is one |
| `ReceiptLedger.ReceiptIdDeterminesCounter` | gamefactorykit/ports.js:83 | equal receipt ids have equal counters, whatever characters the products hold |
| `ReceiptLedger.EachIdAppliesOnce` | gamefactorykit/ports.js:67-74 | in every run an id is applied at most once, and once exactly if it is recorded |
| `ReceiptLedger.NamelessNeverApplied` | gamefactorykit/ports.js:67-68 | a receipt without an id is never applied |
| `ReceiptLedger.RestoreSucceedsExactly` | gamefactorykit/ports.js:90-94 | restore succeeds if and only if some receipt was ever applied |
| `ReceiptLedger.RestoreReturnsLast` | gamefactorykit/ports.js:67-94 | restore returns the whole receipt that was applied last |
| `ReceiptLedger.NextReceiptFreshExactly` | gamefactorykit/ports.js:80-86 | the next minted id is unused if and only if no callback offered it |
| `ReceiptLedger.HonestPurchaseIsFresh` | gamefactorykit/ports.js:80-89 | if callbacks only present receipts of earlier purchases, every ok purchase is new and entitles |
| `ReceiptLedger.PurchaseEntitlesExactly` | gamefactorykit/ports.js:80-86 | an ok purchase ends entitled if and only if it already was or the new id was never offered |
| `ReceiptLedger.ForgedReceiptSpoilsPurchase` | gamefactorykit/ports.js:67-89 | a forged receipt and a revoke make an ok purchase that does not entitle |

## Left out

- Strings are sequences of Unicode code points. JavaScript counts UTF-16 units, so the lengths behind 60, 450 and 900 and the cut at 30 can differ for characters outside the basic plane.
- `JSON.parse`, `TextDecoder`, `fetch`, `EventSource`, timers, storage and the DOM: payload decoding is a parameter of the turn stream, connections are a step machine, times and minted chats are arguments.
- A stream payload that parses to null, which makes the source throw out of its reader.
- The server beyond its attach answers (`AttachServer`) and the merge of one chat (`ServerRelay`). For the other runs, what it may answer is a hypothesis: consecutive journal entries from an index at or below the requested one, and versions whose clocks stay below their `updatedAt`.
- AttachServer.AnswersAreLegal: a flush that fails, the events a crash loses before their flush and the closing entry the orphan sweep adds afterwards change the log itself; `gone` answers end the turn and are not replies.
- ServerRelay.ServerMergesLikeDevice: the limits on titles, messages and bytes, the expiry of tombstones, the `truncated` mark and the revision filter of a pull are not modelled.
- Interleaving inside one sync request: rounds are atomic. `ChatInFlight.EditInFlightExactly` says what becomes of an edit between request and answer.
- More than one stream reader at a time, and the `job` event of one turn inside the log of another.
- `curId`, `liveJobs`, `lastRev`, the busy and signed-out guards of `syncNow`, and the truncated copies kept in storage. A replacement chat is minted when the list is empty.
- SyncClient.Client.DeleteChat: the page state only; stopping the running turn and the server-side forget call are not modelled.
- Clocks are integers: a missing, non-numeric or NaN clock is 0, and a JavaScript null field is not told apart from a defined one. `chatForPush` keeps an absent title or model absent.
- TurnStream.TurnReader.ProcessEvent: only the events that move the text or the cursor; every other event is one `Other` case that only counts.
- Money is `real`, so floating-point rounding of sums is not modelled.
- MoveTree.AnnounceProgress: elapsed and remaining time are not modelled. The machine's product of the percent is a parameter whose error stays below the distance of any other quotient to a half; double arithmetic itself is not modelled.
- BuildJournal.BuildViewer.OnMessage: link state, publish invitations and the replay flag are not modelled.
- The five inner loops of `parse` share `MarkdownBlocks.CollectWhile`, and the two packing loops share `SpeechSplitter.Pack`; list items and quote lines are stripped after they are collected rather than one by one.
- Markdown rendering to DOM nodes and `safeHref`.
- Legacy migration, composer state, the image vault, pricing, privacy labels, the forge dial, task-board grouping, pace estimates and all other interface code.
