# Verified model of the OneBot bridge's core

A Dafny model of the parts of the bridge whose correctness is hardest to see from reading one function,
with proofs of what the code and its comments promise. The project verifies with
`dafny verify dfyconfig.toml`.

## What is modelled

**The OneBot client** (`pkg/onebot/client.go`) as labelled step machines in which every lock region and
channel operation is one step and any goroutine may go next. `Requests` has the callers, the echo counter
(an int64 that wraps), the waiter table, the one-slot channels and the response goroutines, whose lookup
and send are two steps. `Session` has read loops, connection replacement, the status channel held under
the checker lock, the login checkers with a clock, and `Release`. `ClientMachine` interleaves the two.
A *run* is any finite sequence of enabled steps from the initial state, and the main results are about
every state of every run. `OnebotClient` is the client object: a ghost field holds the machine state its
methods have led to, each method is one or more steps of the machine, and `Valid` says that the fields show
that state, so what is proved of all runs is read off the fields (`HoldsOwnEcho`, `CurrentIsOpen`). `Registry`
has the clients by token and the token login, which releases its client and registers again under the same
token.

**Mentions** (`pkg/msgconv/to_onebot.go`). `Tiling` says what it is for pieces to tile a text for an
abstract matcher, and that there is exactly one tiling; `Mentions` instantiates it with leftmost-longest
matching as the specification (`MaximalMunch`) and proves that the code's way - sort by length, leftmost-first
alternation, split, find all, interleave, classify by content - computes it. `FromOnebot` is the loop that
renders segments for Matrix, `MentionRoundTrip` the composition of the two.

**Forwards** (`pkg/msgconv/from_onebot_forward_msg.go`). `Forward` has the flattening walk and the pure
expansion it refines, `ForwardWorkers` the goroutines behind the eight-slot semaphore, `ForwardItem` the
conversion of one item and the IDs of its parts, `ForwardConversion` the three together with what can
fail before the workers start.

**Resync queue** (`pkg/connector/chatinfo.go`, `client.go`). `ResyncRuns` is the step machine of the queue and of
loops with their timers and cancellations, `LoopOwnership` that of the atomic pointer to the stop function.
`Connector` is the object, each of whose methods is a sequence of steps of these machines.

**Identifiers** (`pkg/ids`, `pkg/connector`). Everybody who builds or parses an ID, and one end-to-end
agreement theorem.

## Where the code does not do what one would expect

Each of these is proved with its exact condition.

- A mention of a user called "all" is rendered back as "@room", so text survives the round trip exactly
  when no piece of it is such a mention (`RoundTrip`); all texts do exactly when nobody is called "all"
  (`RoundTripAlways`).
- Parts made from a share or JSON card carry an empty part ID: the part IDs of a forward are distinct exactly
  when at most one item is a card, and all sort after the root exactly when none is
  (`PartIDsDistinct`, `PartIDsAfterRoot`).
- An item with a card, or with exactly one media that is not an image, loses its rendered text (`ItemKeepsText`).
- Flattening does not look at messages eleven forwards deep, item conversion then does: a bad payload there
  fails the conversion but not the flattening (`ExpandFails`, `ForwardAnswer`).
- A bound on the loops alive at once guarantees the seven-day spacing of refreshes if and only if it is one (`SpacedExactly`). Starting
  a loop cancels the old one but does not wait for it: when the old one is still working through its batch by the
  time the new one's timer fires, hours later, both can refresh a ghost at the same moment (`TwoLoopsCollide`).
- The login flag's evidence stays recent exactly while an uncancelled checker exists (`FreshExactly`). A lifecycle connect
  starts none, and a `Release` after a heartbeat cancels the only one (`ReleasedStillLoggedIn`); from then on the flag stays
  true however much time passes (`StaleWithoutChecker`).
- A released client can become active again through a read loop that was admitted before; it stays inactive
  exactly when no such loop is left (`ReleaseHolds`).
- The check interval is three times the announced one exactly for announced values from 0 to 1431655765;
  beyond, the uint32 product is smaller (`IntervalExact`). With an announced 0 the timer is due at once and, since checker steps
  take no time in the model, no time passes while that checker runs.
- Releasing a client drops whatever is registered under its token, even if that is by then another client
  (`Release`), as when a login is cancelled after it has succeeded (`WaitThenCancel`).

## Model

| member | source | states |
|---|---|---|
| Strings.NaturalRoundTrip | pkg/onebot/client.go:199 | printing a number in decimal can be undone, so no two numbers print alike |
| Strings.SprintInjective | pkg/onebot/client.go:199 | two int64 values print the same exactly when they are equal, signs included |
| Strings.CutJoined | pkg/ids/ids.go:19-53 | splitting in two at a separator recovers exactly the parts joined when the first has no separator in it |
| Requests.RunKeepsInv | pkg/onebot/client.go:195-268 | in every interleaving, table entries and held channels belong to the call whose echo was looked up, sent responses are in one place, and no answer is lost to a full channel |
| Requests.OwnEcho | pkg/onebot/client.go:195-251 | a call that returns a response returns one with its own echo, no other call returns the same response, and a response turned away by a full channel lost to another response with the same echo; for any number of calls, wrap-around included |
| Requests.ResponsesConserved | pkg/onebot/client.go:238-251 | each handled response ends as exactly one of consumed, left unread in one channel, dropped as unknown, dropped as full |
| Requests.EchoShared | pkg/onebot/client.go:199 | two calls share an echo exactly when a multiple of 2^64 numberings lies between them |
| Requests.EchoCounts | pkg/onebot/client.go:199 | until the counter wraps the echoes are the decimal numbers from one on |
| Requests.TableExact | pkg/onebot/client.go:201-225 | the table's keys are exactly the echoes of the calls between registration and removal, each leading to its own call's channel; empty when there is none |
| Requests.RemovalIsOwn | pkg/onebot/client.go:259-268 | removal takes out the caller's own entry and nothing else, in every interleaving, even after the counter wrapped |
| Requests.UnknownMeansNoCall | pkg/onebot/client.go:238-242 | a response is dropped as unknown exactly when no registered call has its echo |
| Requests.LateSendReachable | pkg/onebot/client.go:266-267 | a run in which a handler is about to send on the channel of a call that has returned and left the table: closing the channel on removal would panic |
| Session.RunKeepsInv | pkg/onebot/client.go:58-193 | in every interleaving of loops, releases, checkers and time, the connection, lock, checker and freshness invariants hold together |
| Session.ConnectionHandoff | pkg/onebot/client.go:58-67 | the current connection is none or the one attached last and not closed; every other one attached is closed or its loop has ended; a stale loop's exit never clears a newer connection |
| Session.LoginFresh | pkg/onebot/client.go:114-183 | while a checker is uncancelled, a true login flag has evidence (online heartbeat, lifecycle connect, checker start) no older than that checker's interval |
| Session.HistoryMeans | pkg/onebot/client.go:58-129 | what the freshness claims count as evidence, step by step: it is renewed, to the present, only by a lifecycle connect, by handing over "online", and by starting a checker; the latest connection changes only by an attach |
| Session.ExpiryIsLate | pkg/onebot/client.go:171-176 | in every run a checker's timer fires no earlier than one whole check interval after it last stored a status |
| Session.FlagStays | pkg/onebot/client.go:119-183 | the lower bound beside `LoginFresh`: once an online heartbeat is stored, the flag stays up until the check interval has passed, as long as no offline heartbeat is taken, the checker is not cancelled and no cancelled one is still running |
| Session.IntervalExact | pkg/onebot/client.go:163-167 | the uint32 check interval is three times the announced one exactly for 0 to 1431655765 |
| Session.IntervalWraps | pkg/onebot/client.go:163-167 | for any announced interval the check interval lies in the uint32 range and is congruent to three times it modulo 2^32 |
| Session.SendFindsChecker | pkg/onebot/client.go:119-129 | a loop waiting at the status send holds the lock and faces exactly one uncancelled checker, which can accept now or after one own step |
| Session.SendKeepsChecker | pkg/onebot/client.go:121-146 | nothing else can cancel that checker or move that loop before the send is taken, and only the checker's own timer can delay it |
| Session.SendGoesThrough | pkg/onebot/client.go:119-129 | from any send, at most three steps of loop and checker deliver the status and free the lock |
| Session.LockIsReleased | pkg/onebot/client.go:119-146 | from every reachable state, at most four steps of its holder and the current checker free it: heartbeat delivery and `Release` cannot deadlock |
| Session.StaleWithoutChecker | pkg/onebot/client.go:113-118 | from every reachable state with the flag true, no store pending and every checker cancelled (or none ever started), the run can go on to let any length of time pass with the flag still true |
| Session.FreshExactly | pkg/onebot/client.go:114-183 | in every reachable state with the flag true and no store pending, the age of its evidence stays bounded as time passes exactly when an uncancelled checker exists, and then by that checker's interval |
| Session.ReleasedStillLoggedIn | pkg/onebot/client.go:138-149 | the ordinary failing case: a run with one heartbeat and a `Release` that ends without connection and checker and with the flag true |
| Session.ReleaseHolds | pkg/onebot/client.go:138-149 | when a `Release` unlocks in any interleaving, the client stays without connection and checker, however the run goes on without a new connection being admitted, exactly when none is installed then and no read loop is still to attach, reading, or waiting for the lock |
| ClientMachine.WritesGoToNewest | pkg/onebot/client.go:227-236 | a request is written only to the connection attached last, open and with its loop running; "not connected" exactly when there is no current connection |
| ClientMachine.AnswersKeepTheirEcho | pkg/onebot/client.go:195-251 | the echo guarantee survives arbitrary reconnects, heartbeats and releases in between |
| ClientMachine.ReachableInv | pkg/onebot/client.go:58-268 | what any interleaving leads to satisfies the invariants of requests and of connections |
| OnebotClient.Client.HoldsOwnEcho | pkg/onebot/client.go:195-251 | of any client object: a channel only ever holds a response to its own call's echo, and the table leads from an echo only to the channel of a call that printed it |
| OnebotClient.Client.CurrentIsOpen | pkg/onebot/client.go:58-67 | of any client object: the current connection has not been closed, and outside the lock a current checker has not been cancelled |
| OnebotClient.Client.NextEcho | pkg/onebot/client.go:199 | incrementing the wrapping counter yields the echo of the machine's n-th call |
| OnebotClient.Client.Number | pkg/onebot/client.go:195-201 | one `Number` step of the machine: counter, printed echo and fresh channel are those of the next call |
| OnebotClient.Client.AddWaiter | pkg/onebot/client.go:253-257 | one `Register` step of the machine, after which the call is registered under its own echo |
| OnebotClient.Client.Write | pkg/onebot/client.go:227-236 | one `Write` step: sent exactly when there is a connection and writing works; otherwise the call has its outcome |
| OnebotClient.Client.Await | pkg/onebot/client.go:215-224 | one `Receive` or `Expire` step, and whatever is received carries the call's own echo |
| OnebotClient.Client.RemoveWaiter | pkg/onebot/client.go:259-268 | one `Unregister` step of the machine: telling waiters apart by their channels is telling calls apart |
| OnebotClient.Client.Lookup | pkg/onebot/client.go:238-241 | an `Arrive` and a `Lookup` step: the channel found, if any, is the one the machine's handler holds |
| OnebotClient.Client.Offer | pkg/onebot/client.go:242-247 | a `Send` step, at any later state in which the handler holds that channel: a full channel keeps what it has |
| OnebotClient.Client.HandleResponse | pkg/onebot/client.go:238-251 | `Arrive`, `Lookup` and, if a channel was found, `Send`: it ends with the response exactly if it was empty |
| OnebotClient.Client.Request | pkg/onebot/client.go:195-225 | against an agent that sends at most one response meanwhile: exactly when connected, written, not timed out and of the own echo is the call answered, with the response's data if its status is "ok" and as refused otherwise; the table keeps no entry for that echo and is otherwise as before |
| OnebotClient.Client.UpdateConnection | pkg/onebot/client.go:185-193 | the replaced connection is closed, the new one installed |
| OnebotClient.Client.Attach | pkg/onebot/client.go:58-59 | one `Attach` step: the loop's connection is current and the one it replaced is closed |
| OnebotClient.Client.StartLoop | pkg/onebot/client.go:58-69 | a fresh connection's read loop is reading and its connection current, after the steps `Spawn` and `Attach` of the machine |
| OnebotClient.Client.EndLoop | pkg/onebot/client.go:61-67 | one `Detach` step: a loop's exit clears the current connection exactly if no newer one was ever attached |
| OnebotClient.Client.LifecycleConnect | pkg/onebot/client.go:114-118 | one `LifecycleConnect` step |
| OnebotClient.Client.EnsureChecker | pkg/onebot/client.go:122-124 | one `EnsureChecker` step: an existing checker is kept, a new one gets the check interval of the announced interval, and the loop is at the send with a checker there |
| OnebotClient.Client.StartHeartbeat | pkg/onebot/client.go:119-127 | a heartbeat up to the send is exactly the machine's three steps with the announced interval; a checker it starts waits the check interval of that interval, three times as long from 0 to 1431655765 |
| OnebotClient.Client.FinishHeartbeat | pkg/onebot/client.go:127-174 | the send, the checker's store and the unlocking, exactly those three steps: the login flag is the status and the lock is free |
| OnebotClient.Client.ReleaseConn | pkg/onebot/client.go:138-139 | one `ReleaseConn` step |
| OnebotClient.Client.CallCancel | pkg/onebot/client.go:141-143 | one `CancelChecker` step |
| OnebotClient.Client.ForgetChecker | pkg/onebot/client.go:144-146 | one `UnlockByRelease` step |
| OnebotClient.Client.Disconnect | pkg/onebot/client.go:138-139 | the first two steps of a release: the connection is closed and detached, the lock untouched |
| OnebotClient.Client.DropChecker | pkg/onebot/client.go:141-146 | the three steps of a release inside the lock: the checker is cancelled and forgotten, the lock free again |
| OnebotClient.Client.LetGo | pkg/onebot/client.go:138-146 | exactly the five steps of a release with nothing in between: connection closed, checker cancelled, neither left, lock free |
| Registry.Service.NewClient | pkg/onebot/service.go:68-76 | registers a fresh client, not connected and not logged in, under its token, keeping every other entry and token = key |
| Registry.Service.Release | pkg/onebot/client.go:138-149 | connection closed, checker cancelled, token unregistered; other clients' registrations are spared exactly when the token is not somebody else's by then |
| Registry.Service.Stop | pkg/onebot/service.go:51-57 | the registry is empty afterwards and every client that was in it is inactive |
| Registry.Service.Admit | pkg/onebot/service.go:78-106 | admits exactly a "Bearer " token that is registered and whose client is unbound or bound to the announced ID; the agent type follows from the user agent's prefix and is set on that client only |
| Registry.TokenLogin.Start | pkg/connector/login.go:64-78 | registers a fresh client without ID under the new token |
| Registry.TokenLogin.Cancel | pkg/connector/login.go:58-62 | releases and unregisters the login's client, if it was started; its connection is closed |
| Registry.Settled | pkg/connector/login.go:87-122 | the index of the first round that is cancelled or finds a logged-in client with login info; no earlier round settles the wait |
| Registry.TokenLogin.Wait | pkg/connector/login.go:80-124 | succeeds with the ID of the first round that settles the wait, which found the client logged in and not cancelled; the token then leads to the new client bound to that ID, and no other registration has changed but that of a conflicting login, whose client is left without connection and checker; cancelled or unstored logins leave the token unregistered |
| Registry.TokenLogin.LoadUserLogin | pkg/connector/connector.go:60-75 | the token is registered again, for a fresh client with the login's ID, and nothing else changes |
| Registry.TokenLogin.WaitThenCancel | pkg/connector/login.go:58-62 | two clients under one token at work: cancelling a login that has succeeded takes away the registration of the new login's client, which nobody released |
| Tiling.TilesExact | pkg/msgconv/to_onebot.go:88-101 | a text has exactly one tiling into matches and maximal plain pieces, and left-to-right scanning finds it |
| Tiling.ScanJoins | pkg/msgconv/to_onebot.go:90-101 | the scanned pieces joined give the text back |
| Tiling.ShapedUnique | pkg/msgconv/to_onebot.go:88-101 | two tilings of one text are the same |
| Mentions.MaximalMunchExact | pkg/msgconv/to_onebot.go:68-101 | every text has exactly one maximal munch (nothing lost, the longest keyword at each hit, no keyword starting anywhere inside a plain piece even if it runs on, plain pieces non-empty and never adjacent) and it is `Pieces` |
| Mentions.FirstIsLongest | pkg/msgconv/to_onebot.go:77-88 | with alternatives sorted by descending length, leftmost-first picks the longest, whatever the order among equals |
| Mentions.FindAllIsScan | pkg/msgconv/to_onebot.go:88-101 | the library's non-overlapping matches with the text between them are the specification's scan |
| Mentions.ScanIsMunch | pkg/msgconv/to_onebot.go:73-101 | the pieces of the code's own scan are the maximal munch of the set of mentions |
| Mentions.ReclassificationSound | pkg/msgconv/to_onebot.go:103-114 | a piece is among the keywords exactly when it came from a match |
| Mentions.SortByLength | pkg/msgconv/to_onebot.go:78 | in place: descending lengths and a permutation, no promise about equal lengths |
| Mentions.Interleave | pkg/msgconv/to_onebot.go:90-101 | the loop yields the pieces of the cut, empty parts left out |
| Mentions.SortedKeywords | pkg/msgconv/to_onebot.go:73-78 | the keywords, longest first, are as a set exactly "@" before each mention |
| Mentions.SegmentationSends | pkg/msgconv/to_onebot.go:103-114 | what is sent for the pieces of a text: plain ones as they are, a hit on "@room" as everybody ("all"), any other hit as the very name behind its "@"; nobody is addressed as "room", and everybody exactly when a piece is "@room" or "@all" |
| Mentions.ToSegments | pkg/msgconv/to_onebot.go:103-114 | one segment for each string, classified by content: "@room" becomes everybody, other keywords the name behind the "@" |
| Mentions.ConstructMentionSegments | pkg/msgconv/to_onebot.go:68-117 | the segments are a function of the text and the set of mentions, so order, repetition and the unstable sort do not matter, and they send what `SegmentationSends` says |
| Mentions.ConstructTextMessage | pkg/msgconv/to_onebot.go:56-64 | a room mention counts as a mention of "room" and addresses everybody: "all" is among the segments exactly when a piece is "@room" or "@all" |
| MentionRoundTrip.RenderedBack | pkg/msgconv/from_onebot.go:73-79 | rendering adds one character for each mention of "all" and changes nothing else |
| MentionRoundTrip.RoundTrip | pkg/msgconv/to_onebot.go:68-117 | rendering the produced segments gives the text back exactly when no piece mentions a user called "all" |
| MentionRoundTrip.MentionsFound | pkg/msgconv/from_onebot.go:73-79 | when it does, the mentions found on the way back are the names cut out, in order |
| MentionRoundTrip.RoundTripAlways | pkg/msgconv/to_onebot.go:103-114 | all texts survive exactly when nobody mentioned is called "all" |
| MentionRoundTrip.MatrixRoundTrip | pkg/msgconv/from_onebot.go:65-173 | the same as `OnebotToMatrix` makes it: one text part without reply target, whose body is the original text exactly when no piece mentions a user called "all" |
| MentionRoundTrip.TextSegments | pkg/msgconv/to_onebot.go:93-114 | with mentions, no text segment is empty and no two are adjacent |
| Onebot.GenerateAppend | pkg/onebot/protocol.go:871-892 | decoding distributes over concatenation: each element is decoded or skipped by itself |
| Onebot.GenerateOne | pkg/onebot/protocol.go:871-892 | a lone decodable element of any kind is decoded as it stands, any other skipped |
| Onebot.GenerateAll | pkg/onebot/protocol.go:871-892 | when every element is decodable none is dropped, changed or reordered |
| Onebot.DecodeSegments | pkg/onebot/protocol.go:871-892 | the decoding loop gives the decodable elements in order |
| FromOnebot.RenderSegment | pkg/msgconv/segrender.go:20-49 | text and media appended, cards returned, and exactly the segments left to the caller reported as not handled |
| FromOnebot.RenderAny | pkg/msgconv/from_onebot.go:65-90 | what one segment of a message adds to text, media, mentions, card and reply target, whoever renders it |
| FromOnebot.GatherSegments | pkg/msgconv/from_onebot.go:65-130 | the loop gathers body, media, mentions in order, the last card, the last reply target, and the parts of all converted forwards |
| FromOnebot.Choose | pkg/msgconv/from_onebot.go:136-169 | the part chosen when nothing was forwarded, always under part ID "0" |
| FromOnebot.BodyShows | pkg/msgconv/from_onebot.go:65-90 | kind by kind, what each segment writes into the body, at its own place between what the others write |
| FromOnebot.MentionsShow | pkg/msgconv/from_onebot.go:73-79 | each mention is reported at its own place, everybody as "room", and nothing else is one |
| FromOnebot.MediaShow | pkg/msgconv/segrender.go:31-41 | exactly pictures, market faces, records, videos and files become media, each with its own upload and at its own place |
| FromOnebot.ForwardsShow | pkg/msgconv/from_onebot.go:88-130 | each converted forward contributes its parts at its own place, in order; forwards that could not be converted contribute none |
| FromOnebot.AloneBecomes | pkg/msgconv/from_onebot.go:136-169 | a message of one segment, kind by kind: picture, market face, record, video and file become that media, cards that card, everything else its text, always as part "0" |
| FromOnebot.SeveralBecome | pkg/msgconv/from_onebot.go:136-169 | a message of several segments is its last card if it has one, and otherwise all its text |
| FromOnebot.OnebotToMatrix | pkg/msgconv/from_onebot.go:65-173 | converted forwards replace everything else; otherwise one part (last card, mixed or plain text, or the only media) with the mentions; the reply target is the last reply's in the sender's own chat |
| Forward.ExpandAppend | pkg/msgconv/from_onebot_forward_msg.go:40-77 | flattening distributes over concatenation, failures included |
| Forward.Flattener.Walk | pkg/msgconv/from_onebot_forward_msg.go:34-74 | the walk appending to the captured result computes the in-order, depth-limited expansion |
| Forward.Flattener.WalkOne | pkg/msgconv/from_onebot_forward_msg.go:41-72 | the loop body of the walk: one message's leaves are appended, or the error stops it |
| Forward.Flattener.CollectInner | pkg/msgconv/from_onebot_forward_msg.go:47-64 | the segment loop collects the content of every forward in order, placeholders for empty ones |
| Forward.FlattenForward | pkg/msgconv/from_onebot_forward_msg.go:26-99 | equals the pure expansion from depth 0 |
| Forward.ExpandFails | pkg/msgconv/from_onebot_forward_msg.go:31-46 | flattening fails exactly when some message nested at most ten forwards deep has a payload that is not a list |
| Forward.FlattenFails | pkg/msgconv/from_onebot_forward_msg.go:31-46 | the same for the whole flattening: it fails exactly for a bad payload nested at most 10 forwards deep |
| Forward.ExpandComplete | pkg/msgconv/from_onebot_forward_msg.go:34-74 | when it succeeds and nothing eleven forwards deep holds a forward, the result is the complete left-to-right leaf sequence, free of forwards |
| Forward.FlattenComplete | pkg/msgconv/from_onebot_forward_msg.go:34-74 | the same for the whole flattening: all leaves in order when nothing 11 forwards deep holds a forward |
| Forward.ExpandHolds | pkg/msgconv/from_onebot_forward_msg.go:34-74 | past the limit too, a successful result holds exactly the messages without forwards above the limit and every message at it, with whatever it holds |
| Forward.PlaceholderSays | pkg/msgconv/from_onebot_forward_msg.go:103-114 | the stand-in for an empty forward says that it could not be loaded and names its ID if it has one |
| Forward.ExpandLonger | pkg/msgconv/from_onebot_forward_msg.go:54-61 | no message is lost: the result is at least as long as the input |
| Forward.FlattenStable | pkg/msgconv/from_onebot_forward_msg.go:40-74 | flattening returns a list unchanged exactly when every message in it is a list payload without forwards |
| ForwardWorkers.RunKeepsInv | pkg/msgconv/from_onebot_forward_msg.go:354-392 | semaphore, wait group, results and first error agree with the goroutines' positions in every schedule |
| ForwardWorkers.ParallelIsSequential | pkg/msgconv/from_onebot_forward_msg.go:354-392 | under every schedule at most eight items are in conversion, all workers are done before the merge, an error is returned exactly when some item failed and is a failing item's, and otherwise the answer is the in-order concatenation |
| ForwardWorkers.NotStuck | pkg/msgconv/from_onebot_forward_msg.go:363-382 | some goroutine can always move until there is an answer |
| ForwardWorkers.StepLowersRank | pkg/msgconv/from_onebot_forward_msg.go:363-392 | every step makes progress |
| ForwardWorkers.EveryScheduleEnds | pkg/msgconv/from_onebot_forward_msg.go:354-392 | no schedule is longer than six steps an item and one more, and one that cannot go on has given the sequential answer |
| ForwardWorkers.CarryOn | pkg/msgconv/from_onebot_forward_msg.go:363-392 | any schedule so far can be carried on until there is an answer |
| ForwardWorkers.MergeResults | pkg/msgconv/from_onebot_forward_msg.go:388-392 | the merge concatenates the stored results by index |
| ForwardWorkers.SequenceAppend | pkg/msgconv/from_onebot_forward_msg.go:388-392 | the sequential answer of two lists of items one after the other is the first's parts followed by the second's |
| ForwardWorkers.SequenceOne | pkg/msgconv/from_onebot_forward_msg.go:388-392 | the sequential answer of one item is that item's parts |
| ForwardItem.RenderItemOwn | pkg/msgconv/from_onebot_forward_msg.go:147-192 | text and media of the segments the shared rendering leaves alone, upload failures included |
| ForwardItem.RenderItemSegment | pkg/msgconv/from_onebot_forward_msg.go:140-193 | what any segment adds to an item |
| ForwardItem.RenderItem | pkg/msgconv/from_onebot_forward_msg.go:140-193 | the loop gathers text, media, the last card and whether there was an image |
| ForwardItem.AssembleItem | pkg/msgconv/from_onebot_forward_msg.go:195-257 | the parts built from what was gathered, with the placeholder for nothing visible |
| ForwardItem.ConvertMessageItem | pkg/msgconv/from_onebot_forward_msg.go:117-258 | fails exactly on a payload that is not a list, and otherwise gives `ItemParts`, of which the next five rows say what it shows |
| ForwardItem.WrittenShows | pkg/msgconv/from_onebot_forward_msg.go:140-193 | kind by kind, what each segment writes, at its own place between what the others write |
| ForwardItem.TextItem | pkg/msgconv/from_onebot_forward_msg.go:123-254 | an item without card that is not a lone media other than a picture is one text: "[Forward]" with the escaped nickname and user ID, then all that was written or the notice for nothing |
| ForwardItem.PicturesShow | pkg/msgconv/from_onebot_forward_msg.go:154-182 | in such an item each picture and market face whose upload has a URL is a markdown link to exactly that URL, and one without is that kind's own failure notice, each between what the segments before and after it wrote |
| ForwardItem.LoneMedia | pkg/msgconv/from_onebot_forward_msg.go:205-221 | a lone record, video, file or market face becomes two parts, the header as "-0" and that media as "-1" |
| ForwardItem.CardItem | pkg/msgconv/from_onebot_forward_msg.go:140-146 | an item with cards is its last card alone, without part ID |
| ForwardItem.ItemShows | pkg/msgconv/from_onebot_forward_msg.go:195-257 | one or two parts; a single part that is not a card is a text strictly longer than the sender header, for every segment list |
| ForwardItem.ItemKeepsText | pkg/msgconv/from_onebot_forward_msg.go:205-254 | the rendered text is in one of the parts exactly when there is no card and not a single media without image |
| ForwardItem.AddressInjective | pkg/msgconv/from_onebot_forward_msg.go:205-254 | part IDs of one forward can be read back to item and sub-part |
| ForwardItem.AfterRoot | pkg/msgconv/from_onebot_forward_msg.go:326-341 | any numbered part ID differs from the root's "0" and sorts after it |
| ForwardItem.PartIDsDistinct | pkg/msgconv/from_onebot_forward_msg.go:205-254 | over any number of items the part IDs are pairwise distinct exactly when at most one item is a card |
| ForwardItem.PartIDsAfterRoot | pkg/msgconv/from_onebot_forward_msg.go:326-341 | all parts sort after the thread root exactly when no item is a card |
| ForwardConversion.BadLeftOver | pkg/msgconv/from_onebot_forward_msg.go:34-39 | the bad payloads flattening lets through are those nested one forward deeper than its limit |
| ForwardConversion.OutcomeOf | pkg/msgconv/from_onebot_forward_msg.go:363-380 | item i is converted with its own sender, segments and uploads under the number i, or fails with the error for a payload that is no list |
| ForwardConversion.WorkersAnswer | pkg/msgconv/from_onebot_forward_msg.go:354-392 | once flattened, whatever the schedule and uploads: an error exactly when a bad payload is nested at most eleven forwards deep, otherwise the items' parts in order |
| ForwardConversion.ForwardAnswer | pkg/msgconv/from_onebot_forward_msg.go:264-392 | the whole conversion, whatever the schedule and uploads: an error exactly when a bad payload is nested at most eleven forwards deep or the thread root of a non-empty forward could not be sent; otherwise the flattened items' parts in order, at least one for each message |
| ForwardConversion.SomeAnswer | pkg/msgconv/from_onebot_forward_msg.go:264-392 | for every forward, root outcome and uploads the conversion comes to some answer |
| ResyncRuns.RunKeepsInv | pkg/connector/chatinfo.go:184-322 | in every interleaving of enqueues, loops, other refreshes and time, enqueues are conserved, and a ghost found due was found so at least the minimal interval after every refresh logged before that check |
| ResyncRuns.EnqueuesConserved | pkg/connector/chatinfo.go:184-254 | each accepted enqueue is pending once under its own key or in exactly one rotated batch |
| ResyncRuns.RefreshesSpaced | pkg/connector/chatinfo.go:269-321 | with any number of loops, refreshes of one ghost are 604800000000000 ns (seven days) apart unless the later one's check came before the earlier refresh |
| ResyncRuns.SingleLoopThrottles | pkg/connector/chatinfo.go:219-322 | while no two loops are alive at once, queue-driven refreshes of one ghost are at least 604800000000000 ns (seven days) apart even if it is enqueued again while its batch is processed |
| ResyncRuns.TwoLoopsCollide | pkg/connector/chatinfo.go:219-322 | a run of two loops, the second started while the first works through its batch and cancelling it, each rotating only when its timer has fired and it is not cancelled, in which both refresh one ghost at the same time |
| ResyncRuns.SpacedExactly | pkg/connector/chatinfo.go:219-322 | the exact condition: all runs with at most n loops alive at once keep refreshes of a ghost seven days (in nanoseconds) apart if and only if n is at most one |
| ResyncRuns.RotationsApart | pkg/connector/chatinfo.go:219-254 | in every run a loop takes the queue over no earlier than three hours and one second after it began or last took it over: four hours less the jitter of another loop's start |
| ResyncRuns.CurrentRuns | pkg/connector/client.go:59-88 | starting a loop cancels every other and stopping cancels all: in every run the only loop not cancelled is the one that can still be stopped |
| ResyncRuns.SyncedIsLeftAlone | pkg/connector/chatinfo.go:269-290 | whoever synced a ghost, the queue or anything else, no loop finds it due within 604800000000000 ns (seven days) |
| LoopOwnership.RunKeepsInv | pkg/connector/client.go:59-88 | every uncancelled loop's cancel function is in the pointer or with a caller, each loop is made by one caller and spawned once |
| LoopOwnership.LoopsOwned | pkg/connector/client.go:59-88 | every spawned uncancelled loop is in `stopLoops` or about to be cancelled; once all callers returned only the one in `stopLoops` is left, and none if a disconnect came last |
| LoopOwnership.StartAlone | pkg/connector/client.go:80-88 | the four steps of `startLoops` with nothing in between cancel the loop in `stopLoops` and leave the new one there, spawned |
| Connector.PylonClient.InOrder | pkg/connector/chatinfo.go:184-322 | of any client object: each queued key has an accepted enqueue that is in no batch, refreshes waited seven days for all known at their check, and every loop can still be stopped |
| Connector.PylonClient.EnqueueGhostResync | pkg/connector/chatinfo.go:184-199 | reads the clock and queues exactly the ghosts last synced at least 604800000000000 ns ago, making the machine's enqueue; a queued key keeps its item |
| Connector.PylonClient.EnqueuePortalResync | pkg/connector/chatinfo.go:201-217 | the same for portals, groups only |
| Connector.PylonClient.RotateResyncQueue | pkg/connector/chatinfo.go:244-254 | the machine's rotation by a loop whose timer has fired: the batch is the whole queue, the queue starts over empty, the next resync is 14400000000000 ns (four hours) on |
| Connector.PylonClient.CheckItem | pkg/connector/chatinfo.go:269-290 | one `Check` step of the loop at the time read; the item is due exactly when not synced within seven days |
| Connector.PylonClient.Filter | pkg/connector/chatinfo.go:266-290 | exactly the due ghosts and portals of a batch, each once, in whatever order the map is visited, each judged at its own time; the machine's loop has checked the whole batch and found due the same ghosts |
| Connector.PylonClient.UpdateGhost | pkg/connector/chatinfo.go:312-321 | one `Update` step: a ghost whose information came is marked as synced now |
| Connector.PylonClient.DoGhostResync | pkg/connector/chatinfo.go:256-322 | a run of `Check`, `EndCheck`, `Update` and clock steps of the loop, back to its select: exactly the portals due at some moment of the call are queued, once each, exactly the due ghosts whose information came get a new sync time, and nothing happens when not logged in |
| Connector.PylonClient.StartLoops | pkg/connector/client.go:80-88 | the steps of both machines for starting a loop: the new stop function is installed, the replaced one called, the loop spawned |
| Connector.PylonClient.StopLoops | pkg/connector/client.go:59-63 | the steps of both machines for a disconnect: the stop function is taken out and called |
| Identifiers.MessageIDRoundTrip | pkg/ids/ids.go:35-53 | parsing undoes making exactly for peers without ":" that are not "fake"; message IDs may contain anything |
| Identifiers.ParseMessageMeans | pkg/ids/ids.go:43-53 | exactly the IDs with a colon that do not start with "fake:" are accepted, split at the first colon, with the source's error for either other kind |
| Identifiers.FakeRefused | pkg/ids/ids.go:39-53 | fake IDs are always refused and never equal a real one |
| Identifiers.PortalRoundTrip | pkg/ids/ids.go:19-25 | a portal's ID parses back to its peer for every group, and for exactly the users without the separator |
| Identifiers.ParsePortalMeans | pkg/ids/ids.go:19-25 | a portal ID is split at its first separator into type and peer; without one it is a user |
| Identifiers.EventIDsDistinct | pkg/connector/handle_onebot.go:112-118 | two events of plain peers share an ID exactly when kind, peer and message ID agree |
| Identifiers.EventFields | pkg/connector/handle_onebot.go:100-131 | portal, ID, target and reply target read off the message's fields: the sender's chat for a private message, the target's for one sent by this account, the group's for anything else; fake IDs spelled out |
| Identifiers.RecallFields | pkg/connector/handle_onebot.go:33-72 | a friend's recall shows up in that friend's portal and a group's in that group's, as "[revoke]" in reply to the recalled message there, under a fake ID; the own recall in a private chat is dropped |
| Identifiers.PortalOfEvent | pkg/connector/handle_onebot.go:100-106 | an event lands in a portal exactly when it is about that portal's peer |
| Identifiers.HandleMatrixMessage | pkg/connector/handle_matrix.go:16-61 | sends exactly when logged in, converted and the chat type is known, and says why not otherwise; quotes the reply target behind its first colon, and nothing for an ID without colon or starting with "fake:"; stores the ID made from portal and response |
| Identifiers.MessageIDAgreement | pkg/connector/handle_onebot.go:100-131 | end to end: incoming event, `message_sent` echo, stored ID, reply from either side, recall target and redaction argument all name the same message |
| Identifiers.RecallAgreement | pkg/connector/handle_onebot.go:33-72 | a recall of a message of the friend's or the group's chat lands in that message's portal, as a reply to it, under an ID that can be neither replied to nor redacted nor taken for a message |

## Left out

- HTTP, websocket framing, TLS, gzip, file download and media upload: outcomes are parameters (`uploads`, `response`, `polls`, `updated`, `forwards`).
- The bridge framework, its database and Markdown rendering: libraries; formatted bodies are not modelled, only plain bodies.
- Decoding of loosely typed JSON: the model starts from a decoded tree in which a payload is a list or not and a forward without usable content is an empty one.
- Type assertions in segment getters that panic, and the recover around the event handler: segments are well typed.
- Emoji and face tables: functions of the environment; text is rendered verbatim for the agents other than WeChat.
- `addMentions`, location and JSON card templates, floating-point coordinates, display name templates: formatting through libraries.
- The regular expression and sort libraries: an explicit leftmost-first, non-overlapping scan and a contract that any length sort meets; text is the sequence of its UTF-8 bytes, one `char` a byte, and assumed to be valid.
- What the thread root says, its row in the database, and the thread relation set on parts; whether it could be sent is a parameter.
- Logging, sleeps and timers, except those of the login checker and of the resync loops.
- Writing to a connection is one step under its lock; how long it takes and partial writes are not modelled.
- Requests.TableExact: assumes that no call is still running when the counter comes round to its number again, 2^64 requests later; without that the table cannot be exact, since two calls share an echo.
- Requests.UnknownMeansNoCall: the same assumption.
- Session.LoginFresh: a checker's own steps take no time, and the checker's start counts as evidence.
- Session.FreshExactly: the same; a store still pending is excluded, since the model's clock waits for it.
- OnebotClient.Client.Request: one response at most arrives meanwhile; arbitrary interleavings are those of the machine.
- OnebotClient.Client.LetGo: nobody is inside the checker lock, so that taking it does not wait; waiting is in the machine.
- Registry.Service.Release: with nothing in between; what holds in an interleaving is Session.ReleaseHolds.
- Registry.Service.Stop: nobody else uses the registry meanwhile, and nobody is inside a checker lock; shutting the server down is not modelled.
- Registry.TokenLogin.Wait: nobody else uses the registry meanwhile, and the wait is given as the finitely many rounds it went through. Which login conflicts is the framework's decision and a parameter; connecting the new login afterwards is not modelled.
- ForwardItem.PartIDsDistinct: for one forward; several forwards in one message all use forward number 0.
- ResyncRuns.SingleLoopThrottles: for ghosts of one client object; the code never writes a portal's last sync time, so nothing is claimed for portals. The sync time is kept exactly, while its stored form is cut to seconds.
- Identifiers.MessageIDAgreement: for a login with a non-empty ID and peers without ":" other than "fake" (users also without the separator).
- `internal/entrypoint`, configuration, capabilities and avatar probing: set-up, I/O and easy branches.
