# Whisper server: a verified model

The Whisper server relays what a Whisperer types to Listeners, keeps a transcript of completed
lines, speaks them, and hands its sessions to the next server when it shuts down. This project
models the parts of it where state, order and failure matter, and proves what they keep.

Texts are Go strings, that is sequences of bytes; a Dafny `string` stands for one, with one
character per byte. Calls into Redis and Ably are reduced to their effect on a few values, and
whether a call succeeds is an input (`up`, `calls`, `outcomes`), as are clocks, new ids and the
answers of the presence channel. Goroutines are state machines whose next action is chosen by
an adversary.

| file | what it models |
|---|---|
| `GoStrings.dfy` | cutting, splitting and joining strings; decimal numbers in the 64-bit range |
| `Chunk.dfy` | printed forms of control chunks, content chunks and packets, and their parsers |
| `Content.dfy` | playing chunks, turning an edit into chunks, runs of edits, compaction of a log |
| `Browser.dfy` | the web listener's parser and its text state |
| `Redis.dfy` | storage keys and list operations |
| `Transcription.dfy` | suspended packets and the transcription loop of one server |
| `Checkpoint.dfy` | what past text, log and suspended packets add up to, over every run of the loop |
| `Handoff.dfy` | a session changing servers, in every interleaving |
| `Relay.dfy` | a session changing servers any number of times |
| `SuspendedQueue.dfy` | the rotating queue of suspended session ids and its consumer |
| `ShutdownFanIn.dfy` | the shutdown of all sessions and its goroutines |
| `Pubsub.dfy`, `Membership.dfy` | participants on both sides, roles, presence, waitlist |
| `Profile.dfy` | users, their conversations, and the indexes over them |
| `Speech.dfy` | the signal channels of speech generation |

Imperative sources are classes with methods; each method is proved equal to a specification
function, and the results are theorems about that function over all runs.

## Assumptions

- A Redis push that fails stores nothing.
- Packet ids are not empty and contain no `|`; the ids of published packets are distinct.
- The list of suspended packets has expired, and is empty, when a suspension begins (it may
  well hold packets when a loop starts), and a saved state is gone once a server has loaded it
  (`storage/session.go:121`, which ignores an error of the deletion).
- The first packet on the content channel is that of the attachment: the loop takes it and
  does not look at it (`lifecycle/session.go:390`). A content packet in its place would be lost.
- One arm of the transcription loop's select is one step, and so is `newParticipant`.
- A receive from a closed channel yields an empty packet. Such packets are not excluded; they
  are proved harmless.
- For the comparison with the web page, texts are ASCII, where JavaScript positions and bytes
  coincide.

## Where the code falls short of what is promised

- `lifecycle/session.go:167-174` says that the old server keeps listening so that the next one
  can start meanwhile. But a session can only be resumed from its saved state
  (`lifecycle/session.go:79-85`, whether its id comes from the queue or a client asks for it,
  `handlers/session.go:32,56`), and the old server saves it after it has cancelled and
  unsubscribed (lines 178-183). So the two servers never overlap (`Handoff.NeverOverlap`), and a
  packet published in between reaches neither (`Handoff.GapLosesPacket`). A handoff loses
  nothing exactly if no packet is published between the two subscriptions, and when the next
  server loads the list the old loop has emptied its channel and saved its log, and the load
  succeeds or has nothing to find (`Handoff.HandoffCompleteExactly`, and
  `Relay.RelayCompleteExactly` for any number of handoffs). What is lost otherwise is stated in
  `Handoff.HandoffConserves`.
- The next server collects the ids of the suspended packets but never transcribes the packets
  (`lifecycle/session.go:434-446`), so what it shows is the replay of what it received alone (a
  clause of `Handoff.HandoffConserves`). Without any failure or loss a handoff can be seen: one
  logged text chunk is enough (`Handoff.HandoffIsSeen`). It is invisible exactly while the
  loaded packets complete no line and what they leave of the live text is empty, or is
  overwritten before the next newline (`Handoff.HandoffInvisibleExactly`, and
  `Relay.RelayInvisibleExactly` for any number of handoffs).
- Two things go wrong if pubsub delivers a packet twice, once to each server. (Otherwise no
  packet that reaches the next server has a loaded id, by `Handoff.NotLoaded`, as the old one
  has left by then, and the window drops nothing.) The shutdown branch saves packets without looking at the loaded ids
  (`lifecycle/session.go:410-420`), so a server shut down within its window of checks saves
  re-delivered packets; `Checkpoint.ShutdownHandlesTheSame` says exactly when that matters. And
  the window counts packets, not re-deliveries, so packets that are new use it up
  (`Checkpoint.WindowFiltersExactly`, `Checkpoint.WindowCanRunOut`).
- The web page's regular expression rejects a chunk whose text holds a carriage return, which
  the server accepts (`Browser.BrowserAgreesExactly`).
- `sendRereadText` is meant to ask once while a reread is in progress, but every diff ends the
  wait, so each diff that overshoots asks again (`Browser.BrowserSkips`).
- A session id that is queued again while it is being resumed can overtake others
  (`SuspendedQueue.ReaddedIdOvertakes`; `SuspendedQueue.ServedInOrderExactly` says over which
  runs the order is kept). After a failed removal the loop announces that it gives up but goes
  on (`lifecycle/session.go:159-163`); the id then stands where its fetch put it.
- A client that leaves and comes back while a status about it is in flight can be shown with
  the wrong status (`Membership.StaleStatusMisleads`; `Membership.RunSettlesExactly` says over
  which runs that does not happen).
- Deleting a user goes on after a name could not be removed from the index, which can leave a
  dangling name (`Profile.DeleteUserDanglesExactly`).
- A user whose profile cannot be read counts as deleted: nothing happens, and no failure is
  reported (`storage/profile.go:226-231`, `Profile.DeletionReportsExactly`).
- Deleting a conversation by a name that leads to another user's conversation is said to relink
  it (`storage/profile.go:310-321`). `Profile.DeleteUnlinksExactly` says when a deletion that
  reports success leaves the name in place: in states that no run on new ids reaches, whatever
  fails (`Profile.RunNamesLead`), so the branch that relinks is never taken.
- Creating a user whose e-mail hash is in use, which happens when the look-up before it fails
  (`handlers/launch.go:40` ignores its error), breaks the e-mail index even if it succeeds:
  the hash then leads to the new user. `Profile.CreateUserKeepsEmailsExactly` says which
  failures leave the index right.
- Speech ids are the ids of newline chunks, which come from clients. A sequence of ids is safe
  in every interleaving exactly if no id occurs twice (`Speech.CrashFreeExactly`): otherwise
  some interleaving closes a channel twice and crashes the server. In a given state an id can be
  used safely exactly if all goroutines for it are done and no retriever waits for one of them
  (`Speech.ReuseExactly`).

## Model

| member | source | states |
|---|---|---|
| GoStrings.Cut | protocol/chunk.go:68 | the first separator is where the text is cut, and what is returned if there is none; this determines the result |
| GoStrings.JoinOfSplit | protocol/content.go:68 | the pieces of a split hold no separator and join to the text |
| GoStrings.SplitOfJoin | protocol/chunk.go:29 | splitting joined separator-free pieces gives exactly them back |
| GoStrings.AtoiOfItoa | protocol/chunk.go:72 | reading a printed number gives it back exactly when it fits 64 bits, and fails otherwise |
| GoStrings.DigitsArePositional | protocol/chunk.go:72 | a digit is worth itself, and digits in front of k others are worth ten to the power of k times as much |
| GoStrings.ItoaIsDecimal | protocol/chunk.go:50 | a positive number prints in k digits exactly if it lies between the k-1st and the kth power of ten; a negative one as a minus and its negation |
| GoStrings.AtoiReadsSigned | protocol/chunk.go:72 | decimal digits after at most one sign are read, exactly if their value fits 64 bits |
| GoStrings.AtoiReadsNothingElse | protocol/chunk.go:72 | and nothing else is |
| GoStrings.AtoiOfPower | protocol/chunk.go:72 | a one and k zeros read as ten to the power of k |
| GoStrings.Int64IsTwosComplement | protocol/chunk.go:72 | the range is that of 64-bit two's complement |
| Chunk.ContentChunkRoundTrip | protocol/chunk.go:49-77 | print then parse is the identity exactly on 64-bit offsets, negatives and the minimum included, for every text |
| Chunk.ContentChunkNormalises | protocol/chunk.go:67-77 | print after parse is idempotent on every input, unparsable ones included |
| Chunk.ContentPacketRoundTrip | protocol/chunk.go:86-96 | a packet survives its printed form exactly when its id has no separator |
| Chunk.WireForms | protocol/chunk.go:49-96 | the offset in decimal, a separator and the text; the id, a separator and the data |
| Chunk.ControlWireForm | protocol/chunk.go:20-22 | the action and the arguments with a separator between each |
| Chunk.ParseControlChunk | protocol/chunk.go:24-30 | what is parsed has no separator inside its parts and is in normal form |
| Chunk.ControlChunkRoundTrip | protocol/chunk.go:20-30 | print then parse is the identity exactly on separator-free chunks whose arguments are not one empty string |
| Chunk.ControlChunkPrintOfParse | protocol/chunk.go:20-30 | parse then print gives the input back, with a separator appended if it had none |
| Chunk.ControlChunkPrintInjective | protocol/chunk.go:20-30 | separator-free chunks print alike exactly when no argument and one empty argument are all that tells them apart |
| Content.ProcessLiveChunk | protocol/content.go:15-38 | position by position: what stays of the live text, where fillers go, what a newline retires and under which id |
| Content.PlayAllAppend | protocol/content.go:24-38 | playing two streams in a row is playing their concatenation |
| Content.SuffixToChunks | protocol/content.go:64-76 | the loop emits one text chunk and, for each further line, a newline under a new id and the whole line |
| Content.DiffLines | protocol/content.go:40-62 | its three exits all emit what follows the longest common prefix, and nothing if nothing changed |
| Content.DiffReplays | protocol/content.go:40-76 | for any old text, the lines completed and the live text left by playing the diff join to the new text, and the line ids are the new ones in order |
| Content.DiffReplaysLines | protocol/content.go:40-76 | on a one-line old text they are exactly the lines of the new text |
| Content.EditRunReplays | protocol/content.go:40-76 | over any run of edits the receiver has the sender's live text and exactly the completed lines, in order |
| Content.DiffNeverPads | protocol/content.go:48-76 | no chunk of a diff starts beyond the live text it is played against |
| Content.EditRunNeverPads | protocol/content.go:48-76 | the same for every chunk of every run of edits |
| Content.DiffStartsAtDifference | protocol/content.go:48-62 | the first chunk of any edit starts where the texts first differ, with what the edit puts there up to its first newline |
| Content.TypingAppends | protocol/content.go:48-76 | typing at the end sends just what was typed |
| Content.DiffIsShortest | protocol/content.go:48-62 | for changed single lines the diff is one chunk, and no chunk within the old text with the same effect is shorter |
| Content.OvershootCanBeShorter | protocol/content.go:33-37 | an overshooting chunk can be shorter, by borrowing fillers |
| Content.TextChunkAbsorbs | protocol/content.go:33-37 | a text chunk makes an earlier one at the same or a later offset irrelevant, padding included |
| Content.RedeliveryIsHarmless | protocol/content.go:33-37 | playing the last text chunk twice changes nothing |
| Content.CompactPreservesReplay | protocol/content.go:24-38 | every log without newlines can be replaced by one with strictly increasing offsets, with the same replay from any live text |
| Content.PlaysAlikeExactly | protocol/content.go:15-38 | a stream tells two live texts apart exactly if they differ in what its lowest offset before the next newline keeps of them |
| Content.UnparsableIsIgnored | protocol/chunk.go:67-77 | data that is not an offset, a separator and a text leaves the live text and the lines as they are |
| Browser.BrowserSkips | listen.js/src/listen/listen.tsx:431-526 | on every stream of diffs the page shows what the server would without the chunks that the page cannot read and those that overshoot on it, and asks for one reread for each of the latter |
| Browser.ConversationView.ReceiveContentChunk | listen.js/src/listen/listen.tsx:413-495 | the text state after a message is that of the specification function |
| Browser.BrowserReadsPrinted | listen.js/src/protocol.ts:107-145 | the page reads a printed diff chunk, as the server meant it, exactly when its text has no line break |
| Browser.ReceivePrinted | listen.js/src/listen/listen.tsx:431-465 | one chunk within the live text has the same effect on the page as on the server |
| Browser.ReceiveDeparts | listen.js/src/listen/listen.tsx:444-465 | a chunk with a line break is dropped, and one that overshoots asks for a reread |
| Browser.BrowserFollows | listen.js/src/listen/listen.tsx:431-465 | on a stream that never pads the page has the server's live text, its past text is a newline before each completed line, and it never rereads |
| Browser.BrowserFollowsRun | listen.js/src/listen/listen.tsx:431-465 | so it is for every run of edits whose texts have no line break but the newline |
| Browser.BrowserAgreesExactly | listen.js/src/listen/listen.tsx:431-465 | page and server agree at every point of a run exactly when no edit of it holds another line break |
| Browser.HiddenBreakForcesReread | listen.js/src/protocol.ts:107-112 | after a text with such a break the next keystroke forces a reread |
| Browser.ParsersAgreeExactly | listen.js/src/protocol.ts:107-145 | of any data that the server can read, the page reads the same exactly if there is no plus sign in front and no line break in the text |
| Browser.RereadResyncs | listen.js/src/listen/listen.tsx:466-487 | a waiting page drops its live text when the reread starts and shows the text it is sent; a page that does not wait ignores both |
| Browser.FollowsAfterReread | listen.js/src/listen/listen.tsx:431-487 | so a page that fell behind follows the server again |
| Browser.OthersAreIgnored | listen.js/src/listen/listen.tsx:466-495 | no other chunk with an offset below that of a newline has an effect on the text |
| Redis.DbKeyInjective | platform/orm.go:57-65 | two objects share a database key only if they are the same |
| Redis.CacheKeyIsApart | platform/expiring_cache.go:30-32 | the speech cache shares its key with no object |
| Redis.StoreDoesNotInterfere | platform/orm.go:543-554 | storing or deleting one object leaves every other as it was |
| Redis.EveryIdIsStored | platform/orm.go:57-65 | an object can be stored and found again exactly if its id is not empty |
| Redis.StoragePrefixesWellFormed | platform/orm.go:644-697 | the storage prefixes in use have exactly one colon, at the end |
| Redis.RedisList.PushListMembers | platform/orm.go:407-430 | a push on the left reverses the members, one on the right keeps their order, a failed one stores nothing |
| Redis.RedisList.FetchListMemberBlocking | platform/orm.go:356-382 | the member fetched from one end is moved to the other, and nothing else moves |
| Redis.RemoveUpToTakes | platform/orm.go:432-445 | a removal takes out the element only, as often as asked for or as it occurs |
| SuspendedQueue.RemoveOneIs | platform/orm.go:432-445 | a removal of one occurrence takes out the first from the left, and keeps the rest in order |
| SuspendedQueue.RemoveTakesOne | platform/orm.go:432-445 | as multisets, just one occurrence is gone |
| Redis.RangeSelects | platform/orm.go:342-354 | a range is one block of the list, of exactly the positions between two indices that may count from the end; 0 to -1 is the whole list |
| Transcription.SaveSuspendedSessionPackets | storage/session.go:180-197 | the printed packets are appended in order, or nothing is stored |
| Transcription.LoadSuspendedSessionPackets | storage/session.go:199-225 | every stored packet is loaded and parsed, in order |
| Transcription.LoadedAfterSave | storage/session.go:180-225 | loading after saving gives what was there before and the packets saved |
| Transcription.WireReplay | storage/session.go:180-225 | chunks that are printed, wrapped, saved in any batches, loaded and parsed play as the original chunks do |
| Transcription.Session.constructor | lifecycle/session.go:90-98 | a session starts from saved past text with no live text and an empty log |
| Transcription.Session.ProcessSuspendedPackets | lifecycle/session.go:434-446 | the ids of the loaded packets, and none if the load fails |
| Transcription.Session.TranscribeOnePacket | lifecycle/session.go:448-458 | a newline retires the line, speaks it and empties the log; any other chunk is logged |
| Transcription.Session.TakeArm | lifecycle/session.go:396-430 | one turn of the loop is one step of the specification, failed saves included |
| Transcription.Session.TranscribeContent | lifecycle/session.go:387-432 | the whole loop is the specification's run from the window of loaded ids, and its new past lines carry the times of their newlines |
| Transcription.RunStampsLines | lifecycle/session.go:448-452 | over every run each new past line carries the clock at its newline, which came before a shutdown and was passed on |
| Transcription.PastGrows | lifecycle/session.go:410-452 | past lines are never changed, and none is added once a shutdown has begun |
| Checkpoint.PassedOnAll | lifecycle/session.go:421-428 | at most as many packets are dropped as the window is long, and none exactly when no loaded id comes within it |
| Checkpoint.NewSurvives | lifecycle/session.go:421-428 | every packet dropped has a loaded id |
| Checkpoint.WindowFiltersExactly | lifecycle/session.go:421-428 | exactly the re-deliveries are dropped if and only if none comes after the window |
| Checkpoint.ExactlyOnce | lifecycle/session.go:393-430 | if the re-delivered packets have distinct loaded ids and come first, exactly the rest is passed on, in order |
| Checkpoint.OverlapIsHandledOnce | lifecycle/session.go:387-458 | so the loop, whatever list it starts with, shows, speaks and keeps just what the rest says, through a shutdown as well |
| Checkpoint.WindowCanRunOut | lifecycle/session.go:421-428 | a new packet can use up the window, so that a re-delivery passes |
| Checkpoint.NewlineCheckpoints | lifecycle/session.go:448-458 | transcribing a newline moves everything logged into the past text |
| Checkpoint.AccountsStep | lifecycle/session.go:395-431 | every step keeps the account: checkpointed packets, then saved ones, then unsaved ones, nothing lost or reordered |
| Checkpoint.RunAddsToList | lifecycle/session.go:387-446 | what is in the list when the loop starts plays no part in the run, which only adds to it |
| Checkpoint.RunAccounts | lifecycle/session.go:387-458 | so does every run from a fresh start, of the packets that the run itself added to the list |
| Checkpoint.ReplayLog | lifecycle/session.go:448-458 | until a shutdown the log has no newline and replays to exactly the live text; past text, speech and live text are those of all packets passed on |
| Checkpoint.RunTranscribes | lifecycle/session.go:387-458 | over every run, through a shutdown too, past text and speech grow by just the lines that the packets passed on before it complete, with their times |
| Checkpoint.CheckpointPlusLog | lifecycle/session.go:387-458 | at every moment past text plus replay of the packets that the run saved and of the unsaved ones shows what playing all handled packets shows, newlines during the shutdown included |
| Checkpoint.NothingLostExactly | lifecycle/session.go:397-420 | a shutdown leaves everything since the checkpoint in the list exactly if the save at the cancellation succeeds, or that of the last packet during the shutdown does, or no packet came during it and the last one passed on before it was a newline (or there was none) |
| Checkpoint.ShutdownHandlesTheSame | lifecycle/session.go:410-428 | a shutdown handles the packets that a server without one would, exactly when no re-delivery arrives in what is left of the window |
| Checkpoint.ShutdownLosesNothing | lifecycle/session.go:387-458 | under that condition on the saves, and if no re-delivery arrives during the shutdown within the window, past text and a replay of the saved list show what a server never shut down shows |
| Checkpoint.ZeroPacketsHarmless | lifecycle/session.go:409-419 | the empty packets of a closed channel change no replay |
| Checkpoint.TypedIsKept | lifecycle/session.go:387-458 | end to end: past text plus replay of saved and unsaved packets are the lines that a whisperer completed and the text it is at, when its edits are diffed, printed, wrapped and received, in part during a shutdown |
| Checkpoint.FailedLastSaveLoses | lifecycle/session.go:400-404 | if the last save fails, live text can be lost |
| Handoff.InvStep | lifecycle/session.go:139-187 | every action of either server, of the whisperer or of the queue keeps the invariant |
| Handoff.NeverOverlap | lifecycle/session.go:167-187 | in every interleaving, with the session resumed from the queue or by a client as soon as its state is saved, the next server subscribes only after the old one has unsubscribed, and each packet reaches at most one of them |
| Handoff.PublishedIsAccepted | lifecycle/session.go:139-187 | what counts as published is what the schedule publishes under valid, new ids |
| Handoff.OldServes | lifecycle/session.go:176-187 | the old server receives all that is published until it leaves pubsub, its loop runs until the session is cancelled, and no server follows until the state was saved |
| Handoff.ResumesWithTimes | lifecycle/session.go:79-98 | the saved past lines carry the times of their newlines; the next server keeps them and adds its own, with theirs |
| Handoff.HandoffConserves | lifecycle/session.go:117-187 | everything published is, in order, checkpointed, loaded, missed by the load, in the gap, received or still in the channel; the next server drops nothing and shows just what it received |
| Handoff.HandoffCompleteExactly | lifecycle/session.go:117-187 | nothing is lost exactly if the schedule publishes no packet between the two subscriptions, and at the load the old loop has emptied its channel and saved its log, and the load succeeds or has nothing to find |
| Handoff.HandoffShowsEverything | lifecycle/session.go:387-458 | then saved past text plus replay of loaded and received packets shows all that was published |
| Handoff.GapLosesPacket | lifecycle/session.go:178-186 | a shutdown without failures in which a packet is lost |
| Handoff.HandoffInvisibleExactly | lifecycle/session.go:434-446 | if nothing is lost, the next server shows what one server would exactly while the loaded packets complete no line and what they leave of the live text is empty or overwritten before the next newline |
| Handoff.HandoffIsSeen | lifecycle/session.go:434-446 | a handoff without failure or loss that is not invisible |
| Relay.PromotedKeeps | lifecycle/session.go:79-106 | the next server of a handoff, once it is the one to be shut down, meets the invariant of the old one |
| Relay.RelayConserves | lifecycle/session.go:79-187 | over any number of handoffs all that was sent is, leg by leg and in order, checkpointed, loaded, missed, in a gap or with the current handoff; the serving server shows what the legs completed and then what it received |
| Relay.RelayCompleteExactly | lifecycle/session.go:117-187 | nothing is lost over any number of handoffs exactly if every step loses nothing |
| Relay.RelayInvisibleExactly | lifecycle/session.go:387-458 | if so, the serving server shows what one server would that played everything ever sent, exactly while every leg and what it received itself cover what the servers before loaded or left |
| SuspendedQueue.AddSuspendedSession | storage/session.go:27-33 | the id becomes the newest of the queue |
| SuspendedQueue.WaitForSuspendedSession | storage/session.go:43-55 | the oldest id is served and moved to the other end, or nothing changes |
| SuspendedQueue.RemoveSuspendedSession | storage/session.go:35-41 | the newest occurrence of the id is removed |
| SuspendedQueue.QueueIsSafe | lifecycle/session.go:141-165 | for any producers and failures, ids are conserved as a multiset and the id being resumed is still queued |
| SuspendedQueue.ServedInOrderExactly | lifecycle/session.go:141-165 | over every run, with ids that come back and failed removals, whose ids stand where their fetch put them: the list is at every moment the rest of what was queued, around the id in flight, exactly if every removal finds nothing else queued between the fetch and the last time its id was queued again |
| SuspendedQueue.QueueServesInOrder | lifecycle/session.go:141-165 | then ids are served first in, first out, with any interleaved producers |
| SuspendedQueue.DistinctKeepsOrder | lifecycle/session.go:141-165 | so it is if no id is queued twice |
| SuspendedQueue.CycleKeepsOrderExactly | storage/session.go:27-55 | a fetch and a removal keep the order exactly when nothing else was added before the fetched id was added again |
| SuspendedQueue.ReaddedIdOvertakes | storage/session.go:27-55 | otherwise an id can be served twice before one that waited longer |
| SuspendedQueue.StartAllSuspendedSessions | lifecycle/session.go:139-165 | for all outcomes the ids started and removed and the queue left are those of the consumer's turns, in which an id is started before its removal is tried; without failures ids are started oldest first until the queue is empty |
| SuspendedQueue.ConsumerServesInOrder | lifecycle/session.go:139-165 | so ids are started in the order in which they were queued, whatever fails, those whose removal failed behind the others |
| ShutdownFanIn.InvRun | lifecycle/session.go:120-187 | what each goroutine has done agrees with the trace, in every interleaving |
| ShutdownFanIn.ShutdownFansIn | lifecycle/session.go:117-187 | when the shutdown is finished each id had exactly one enqueue attempt, after its cancellation and its save attempt, and the count is notified last; no send ever waits |
| ShutdownFanIn.NeverStuck | lifecycle/session.go:130-136 | until then some goroutine can always move |
| ShutdownFanIn.FinishesExactly | lifecycle/session.go:120-187 | in every order, it is finished after exactly six steps for each session and two more, and not before |
| ShutdownFanIn.EnqueuedAsReported | lifecycle/session.go:125-135 | ids are enqueued in the order in which their goroutines reported |
| Pubsub.RightsGrow | pubsub/ably.go:235-261 | an addition grants rights and takes none back, leaves everyone else and the attachment of a known client alone, and is undone by a removal |
| Pubsub.StatusOnChange | pubsub/ably.go:379-418 | a status is sent exactly when a known client comes that was away or goes that was there; nothing else changes anything |
| Pubsub.PubsubSession.AddWhisperer | pubsub/ably.go:235-248 | whispering and listening rights, and the attachment that was known or found |
| Pubsub.PubsubSession.AddListener | pubsub/ably.go:250-261 | listening rights only; a whisperer keeps its rights |
| Pubsub.PubsubSession.RemoveClient | pubsub/ably.go:309-318 | the client is gone, others are as they were |
| Pubsub.PubsubSession.ReceivePresence | pubsub/ably.go:379-418 | a status is sent exactly when the attachment changed |
| Membership.Slice.Append | lifecycle/session.go:234 | one participant is added at the end, in place or in a new array |
| Membership.Slice.RemoveAt | lifecycle/session.go:220 | the in-place shift takes out one participant and keeps the order of the rest |
| Membership.Session.RemoveWaiting | lifecycle/session.go:218-223 | the client leaves the waitlist, the others stay in order |
| Membership.Session.AddNewParticipant | lifecycle/session.go:321-343 | a new participant on both sides with the online status that pubsub reports, or a refusal |
| Membership.Session.AddWhisperer | lifecycle/session.go:209-213 | the new state and the refusal of a client that is present |
| Membership.Session.AddListener | lifecycle/session.go:215-225 | the client leaves the waitlist even if it is refused as present |
| Membership.Session.AddListenerRequest | lifecycle/session.go:227-237 | a client waits at most once |
| Membership.Session.RemoveClient | lifecycle/session.go:257-276 | removed from both sides, or else from the waitlist, or reported as not present |
| Membership.Session.MonitorOne | lifecycle/session.go:368-376 | the oldest status is taken; one about a stranger is dropped |
| Membership.Session.Start | lifecycle/session.go:285-319 | a resumed session is consistent with its fresh pubsub session, in whatever order participants are added |
| Membership.RequestKeeps | lifecycle/session.go:227-237 | a client that asks waits last, and no one else is touched |
| Membership.RemovalKeeps | lifecycle/session.go:257-276 | a removed client is on neither side and everyone else is as before |
| Membership.ApplyConsistentExactly | lifecycle/session.go:210-385 | every operation keeps distinct waiting clients, equal participants with matching rights, and presence agreement with messages in flight, exactly if it is not the return of a client that messages in flight disturb |
| Membership.RunKeepsMembers | lifecycle/session.go:209-343 | over every run, waiting clients stay distinct, participants are keyed by their client id, and the pubsub session has the same participants with the rights of their roles |
| Membership.RunConsistentExactly | pubsub/ably.go:382-418 | so it is at every moment of a run exactly if every client that returns is undisturbed |
| Membership.RunSettlesExactly | lifecycle/session.go:361-385 | over every run the session would at every moment settle on the right status of everyone exactly if, whenever a client returns, no message about it is in flight or the last one says what is so |
| Membership.TakingAllSettles | lifecycle/session.go:361-385 | once all messages are taken the session shows everyone as pubsub has them |
| Membership.PresenceGetsThrough | pubsub/ably.go:382-418 | an enter or leave is what the session shows in the end, whatever was in flight |
| Membership.AdmissionKeepsOrder | lifecycle/session.go:215-225 | admitting a waiting client leaves the others in order and makes it a participant |
| Membership.ReaddedExactly | lifecycle/session.go:321-343 | a returning client ends up with the right status exactly when no stale message is in flight or the last one agrees |
| Membership.StaleStatusMisleads | lifecycle/session.go:368-373 | a client that left and returned at once is shown offline although attached |
| Membership.RunAdmits | lifecycle/session.go:209-343 | going by the operations alone: a client is a participant exactly if one admitted it and none removed it since, a whisperer exactly if that was AddWhisperer, with the profile id, name and time of that operation; and it waits exactly if it asked and was neither admitted as a listener nor removed since, as it asked |
| Membership.TokensMatchRoles | pubsub/ably.go:275-307 | over every run exactly participants get a token, all may listen, and exactly those may publish that were last admitted by AddWhisperer |
| Profile.Database.CreateNewOwnedConversation | storage/profile.go:264-288 | the store and the result for every pattern of failures |
| Profile.Database.DeleteOwnedConversation | storage/profile.go:290-323 | the same, with the relinking of a conversation of another owner, and exactly when it reports success |
| Profile.Database.CreateNewUser | storage/profile.go:179-214 | the same, with the deferred clean-up |
| Profile.Database.DeleteConversationsOf | storage/profile.go:236-256 | while names lead to their own conversation or to none, as they do in every run, the loop, in any order and with any failures, leaves what the order-free specification says |
| Profile.Database.DeleteExistingUser | storage/profile.go:216-262 | in the same states: failures do not stop the deletion; the store is what the specification says, and a failure is reported exactly when some call failed or some conversation is missing |
| Profile.CreateKeepsIndexExactly | storage/profile.go:264-288 | the index stays a bijection exactly when the name was unused |
| Profile.CreateAddsJustOne | storage/profile.go:264-323 | one conversation and one name are added, and deleting by that name undoes it |
| Profile.FailedCreate | storage/profile.go:275-286 | a failed creation leaves no trace exactly when its clean-up succeeds |
| Profile.DeleteKeepsIndex | storage/profile.go:290-323 | no name is left dangling under any failure; a conversation is hidden exactly when only its deletion fails |
| Profile.DeleteUnlinksExactly | storage/profile.go:290-323 | a deletion that reports success removes the name exactly if it was unknown or led to a conversation of that owner and name, as it always does while names lead as they should |
| Profile.DeleteReportsExactly | storage/profile.go:290-323 | in an indexed store a deletion reports success exactly if the look-up succeeds and neither the name nor such a conversation is left |
| Profile.RelinkReportsExactly | storage/profile.go:310-321 | with a name that leads to someone else's conversation it reports success exactly if its owner finds the conversation under its name afterwards |
| Profile.DeleteRemovesJustOne | storage/profile.go:290-323 | without failures just the named conversation and its name go |
| Profile.CreateUserAllOrNothing | storage/profile.go:179-214 | a failed creation changes nothing exactly when the clean-ups of what was stored succeed |
| Profile.CreateUserKeepsEmailsExactly | storage/profile.go:179-214 | for hashes in use and not, the exact patterns of failures that keep the e-mail index a bijection |
| Profile.CreateUserKeeps | storage/profile.go:179-214 | a new user has a profile, an e-mail mapping and an indexed first conversation |
| Profile.DeleteUserDanglesExactly | storage/profile.go:241-256 | a name dangles exactly if its removal failed and the deletion of its conversation did not |
| Profile.DeleteUserRemovesJustTheirs | storage/profile.go:216-262 | the user's map is empty, their conversations, profile and e-mail are gone, everyone else's are untouched |
| Profile.DeletionReportsExactly | storage/profile.go:216-262 | the deletion of a user reports no failure exactly if the profile cannot be read, or the map of conversations can and nothing of the user is left |
| Profile.ApplyKeepsExactly | storage/profile.go:179-323 | for every operation, the exact failures that keep the indexes of conversations, and the e-mail index, right |
| Profile.RunIndexedExactly | storage/profile.go:179-323 | over every sequence of creations and deletions on fresh ids, with any failures, both indexes are bijections at every moment exactly if the calls of every operation keep them so |
| Profile.UnfailingKeepsAll | storage/profile.go:179-323 | which they do if none fails and no name or e-mail hash is in use |
| Profile.RunDanglesExactly | storage/profile.go:179-323 | over every such sequence no name ever dangles exactly if no deletion of a user removes a conversation but not its name |
| Profile.RunNamesLead | storage/profile.go:179-323 | over every sequence on ids that were never used, whatever fails, names lead to their own conversation or to none that is stored |
| Speech.SignalsAreSafe | speech/resemble_manager.go:38-80 | if ids are used with care, in every interleaving: no close fails, each channel is closed once, a signal is its own channel and stays until closed, and no one who found a signal reads early |
| Speech.UniqueIdsAreCareful | speech/resemble_manager.go:38-80 | unique ids are used with care |
| Speech.AskFindsSignal | speech/resemble_manager.go:57-67 | who asks while the speech is being made waits on the channel of that call |
| Speech.CachedExactly | speech/resemble_manager.go:38-54 | over every run, with whatever ids, a speech is in the cache exactly if some call for its id generated and then stored it |
| Speech.OutcomeIsFinal | speech/resemble_manager.go:69-79 | what the cache holds for an id when its goroutine ends stays so |
| Speech.CrashFreeExactly | speech/resemble_manager.go:38-80 | a sequence of ids crashes in no interleaving exactly if no id occurs twice |
| Speech.ReuseExactly | speech/resemble_manager.go:38-67 | after any careful run an id can be used without a later crash exactly if every goroutine for it is done and no retriever waits for one |

## Left out

- HTTP handlers, routing, authentication, e-mail, logging and configuration: request plumbing.
- The Ably, Redis, S3 and Resemble clients and the gob and JSON encodings, which are taken as exact.
- Ids that the server draws (line, conversation and profile ids) are inputs, assumed fresh where a result says so.
- Clocks: the ten-second wait, timeouts and expirations appear only as the order of steps; a list or cache entry that expires early is not modelled.
- A failed Redis push that did store its members: packets would then be stored twice.
- A cancellation that comes while one packet is being transcribed: an arm of the select is one step.
- Control messages about waiting clients and changed participants: `notifyNeedsAuth` addresses the literal client `whisperer` (`lifecycle/session.go:350`), which `sendControl` looks up as a participant.
- Ending a session and its transcript: `saveTranscript` adds the unfinished line to a list that it then does not store (`lifecycle/session.go:460-465`).
- `GetSession` for a conversation without a saved state, which returns an error before a new state is made (`lifecycle/session.go:79-85`), and one that fails after it has loaded, and so deleted, the saved state: a session that starts, starts in one step.
- Error returns of the pubsub calls inside a session, which need a pubsub session that was not started; memberships are modelled over error-free runs.
- The map of pubsub sessions and the wait-listed pubsub participants, which no caller uses.
- Unsynchronised access to Go maps and slices from several goroutines: each operation is one step.
- The listening permission flow, sounds, links and typing indicators of the web page, message addressing, and what happens to the page after a reread was requested; `parseInt` on offsets beyond 2^53.
- Texts outside ASCII on the web page.
- Client activity records, allowed-listener sets and `DebugString`: they would add only easy members.
- The functional form of the speech signals, of the fan-in and of the handoff: they are state machines over steps, not classes, because their point is the interleaving.
