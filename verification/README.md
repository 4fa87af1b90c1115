# Verification of the Pheidippides messenger

A Dafny 4.11 model of the Pheidippides messenger's core: live delivery of messages, the stores that
answer its queries, the browser page that shows them, accounts, and the wire formats it writes and
reads by hand. `dafny verify dfyconfig.toml` checks everything.

## What is modelled

**Live delivery.** `Delivery` is a transition system over the message log, the phase of every send,
the map from users to broadcast channels, the channels as append-only logs read through a window,
and every subscription with its receiver, its history and its chain of forwarding tasks. One step is
one critical section or one atomic call; steps of different sends, subscriptions, timers and clients
interleave freely, except where the read or write lock of the map forbids it. Reading the history asks
one of two stores: the relational one that the server runs on by default, where a message is since
another if its (timestamp, id) is greater, or the in-memory one of the `--mock` flag, where it is if it
was stored later. `Histories` says what either may answer, and every theorem about delivery holds for
both. `DeliveryInvariants` holds what every step keeps, `DeliveryTheorems` and `DeliveryLiveness` what
follows for every run.
`KeepingUp` proves that a stream is not cut off as long as it keeps up, and `Progress` that nothing gets
stuck: what every reachable state allows to happen next. `Pipelines` is the chain of FIFO tasks, `Stages` the loop that each of them runs, and `Handler` the
subscriptions handler as an object whose methods are the steps of the transition system.
`Reconnect` adds a client that comes back with the id of its last event; the sends that involve its user
are not interrupted, all others interleave freely. `Resumption` drops that condition and proves, for any
interleaving, exactly which messages a client misses, and which it gets twice, that comes back with the
last event it got of what a connection had written; `Interleavings` holds runs in which it does.

**Queries.** `Queries` and `Store` follow the in-memory store, which works by position in its log;
`Keyset` and `ChatList` state the meaning of the SQL, which works by comparing, ordering, grouping
and limiting rows, and prove when both give the same answers. `Browser` is the chat page's buffer,
its paging and its list of chats; its requests are answered later and in any order.

**Accounts.** `Accounts` is a transition system of concurrent creators, each of which may stop
between the user write and the credential write; `Messenger` is the object that performs the writes.

**Wire formats.** `FormData`, `EventStream`, `HttpRequest`, and `HttpResponse` with `HttpClient`, pair
what the program writes or reads with the other side as the standard describes it, and prove when one
undoes the other. `FormInputs` and `RequestInputs` say what the two parsers make of arbitrary input, with
the error for each input that they reject; `Utf8` ties well-formed bytes to the characters they encode.

Some expectations that a reader of the source might have are false. The code is kept as it is, and the
exact condition is proved:

- A publish stops at the sender's own channel when that channel is still in the map and has lost its
  receivers, so the recipient is skipped. `CutShortExactly` says when that happens, `DeliveredExactly`
  which messages are then missing, and `SkippedRecipient` is such a run.
- A message's timestamp is chosen before it is stored. From a starting point, the relational store leaves
  out what is stored after it with an earlier timestamp, so such a message is not delivered if it was
  published before the subscription registered. `PositionAnswersExactly` says when its answer is what
  follows in the log, `DeliveredExactly` what is delivered with either store, and `LateStoredIsLeftOut`
  is such a run; `ChronologicalDelivery` shows that on a log in the order of its timestamps the stores
  do not differ.
- Sends that overlap can leave a gap that reconnecting does not close, even if nothing is lost in
  flight. `OvertakenExactly` says which completed messages a client has got on neither of two
  connections, `MissedExactly` and `MissedByAllExactly` also account for cut-short ones, equal
  timestamps and any number of connections, `MissedForGood` carries the loss over every continuation.
  `OverlappingSendsLeaveGap` and, for a message that was written and lost in flight, `LostInFlight` are
  such runs.
- Overlapping sends can also bring a message on both connections: `RepeatedExactly` says which, and
  `OverlappingSendsRepeat` is such a run.
- A client without a starting point, like the chat page, is owed nothing from before the last connect
  at which it had received nothing, although it had been connected earlier. `LostBeforeFirstEvent` says
  which messages it loses, and `MessageBeforeFirstEventIsLost` is such a run.
- A second click before older messages have arrived asks for the same page again, and the page shows it
  twice. `PagingRebuildsChat` proves that what is shown stays an end of the chat exactly if every answer
  is to a request for what comes before the first message then shown; `DoubleClickRepeats` is a run
  where it does not. A chat whose messages arrive after another one was opened replaces what is shown
  there (`LoadShowsOpenChat`, `LateLoadShowsOtherChat`).
- The two stores answer the chat query differently from an unknown starting point; they agree exactly
  when the chat is empty (`UnknownStartDiffers`). The relational chat list has no answer when a partner
  has no row in the users table (`ChatUsersAgree`).
- Form data whose last value is empty is rejected; event data with a CR, without characters or with an
  LF at its end is not received as written; and a response with a header that is not clean, or that
  announces a wrong length, is not read as it was built (`FormData.RoundTripExactly`,
  `EventStream.RoundTripExactly`, `HttpClient.BuiltResponseReadsBack`).

## Model

| member | source | states |
|---|---|---|
| DeliveryInvariants.StepKeepsInv | lib/pheidippides-messenger/src/subscriptions_handler.rs:33-132 | every step of a send, a subscription, a forwarding task or the cleanup keeps the invariant: ids distinct in the log and in each channel, receivers on their user's current channel, everything published covered by the log or the channel, nothing lost in the queues |
| DeliveryInvariants.RunKeepsInv | lib/pheidippides-messenger/src/subscriptions_handler.rs:33-132 | the invariant holds after every legal run |
| DeliveryTheorems.NoDuplicates | lib/pheidippides-messenger/src/subscriptions_handler.rs:113-128 | in every run, one subscription never delivers the same id twice |
| DeliveryTheorems.EndsRatherThanSkips | lib/pheidippides-utils/src/async_utils.rs:52-89 | what was delivered is a prefix of the history followed by the filtered channel, the rest of what was received sits in the queues in order, and a receiver that is too far behind can only end |
| KeepingUp.LosesReceiverOnly | lib/pheidippides-utils/src/async_utils.rs:60-89 | a subscription loses its receiver only because reading the history that it asked for failed, because it was further behind than the channel reaches back, or because its connection had closed |
| KeepingUp.StaysAttached | lib/pheidippides-utils/src/async_utils.rs:60-89 | over every run, a subscription that is read and never further behind than the channel reaches back keeps its receiver |
| KeepingUp.KeepingUpMissesNothing | lib/pheidippides-messenger/src/subscriptions_handler.rs:88-131 | and if it has written everything at the end of the run, it has delivered every completed message that it is owed |
| DeliveryTheorems.DetachedForever | lib/pheidippides-utils/src/async_utils.rs:73-76 | once the receiver is gone the stream never grows again, whatever the system does |
| DeliveryTheorems.NothingForeign | lib/pheidippides-messenger/src/subscriptions_handler.rs:83-132 | every delivered message is stored and is the user's, and is since a starting point stored before the registration, by the order of the store, or was stored after the registration, or was stored but not yet published by then |
| DeliveryTheorems.ReceiversShareTheRoute | lib/pheidippides-messenger/src/subscriptions_handler.rs:88-99 | every live receiver of a user is on the one channel that the map holds for that user, and never sees its channel closed |
| DeliveryTheorems.CleanupIsExact | lib/pheidippides-messenger/src/subscriptions_handler.rs:56-72 | cleanup keeps exactly the users that have a live receiver, with their channels, and disconnects nobody |
| DeliveryTheorems.DueExactly | lib/pheidippides-messenger/src/messenger.rs:82-89 | with either store, for a live receiver, a message whose publishing is over is in the history or on the channel exactly if it was stored by the time of the history and is since the starting point by the order of that store, or it was unpublished at the registration and not cut short |
| DeliveryTheorems.DeliveredExactly | lib/pheidippides-messenger/src/subscriptions_handler.rs:88-131 | the same condition decides exactly which messages a drained pipeline has delivered, with either store and under every interleaving |
| DeliveryTheorems.NoGaps | lib/pheidippides-messenger/src/subscriptions_handler.rs:88-131 | a drained pipeline has delivered every completed message that was stored after the registration or is since the starting point by the order of the store, except exactly those whose publishing was cut short before the history could hold them |
| DeliveryTheorems.ChronologicalDelivery | lib/postgres-db/src/lib.rs:349-401 | on a log stored in the order of its timestamps the same messages are delivered with either store, and since is by position |
| Histories.AnswerMembers | lib/postgres-db/src/lib.rs:349-401 | from a stored starting point either store returns exactly the user's messages since it: stored later, or with a greater (timestamp, id) |
| Histories.OneIsSinceTheOther | lib/postgres-db/src/lib.rs:372-375 | with either store, of two stored messages exactly one is since the other, and none is since itself |
| Histories.AnswerSound | lib/mock-db/src/lib.rs:265-296 | from any starting point either store returns stored messages of the user only, each id once |
| Histories.BackendsAgree | lib/postgres-db/src/lib.rs:349-401 | on a log stored in the order of its timestamps, the two stores give the same answers from any starting point or none |
| Histories.PositionAnswersExactly | lib/postgres-db/src/lib.rs:372-375 | what follows the starting point in the log is an answer of the relational store exactly if the user's messages with greater keys are those that were stored later, and these were stored in the order of their timestamps |
| Histories.AnswerInOrder | lib/postgres-db/src/lib.rs:372-375 | if the user's messages and the starting point were stored in the strict order of their timestamps, whatever the others were, either store returns the user's part of the log after it |
| Histories.SomeAnswer | lib/postgres-db/src/lib.rs:375 | every question has an answer: the rows can always be listed in the order of their timestamps |
| DeliveryTheorems.CutShortExactly | lib/pheidippides-messenger/src/subscriptions_handler.rs:39-51 | a publish is cut short exactly when the sender's channel is in the map and no live receiver is the sender's; then no channel gets the message |
| DeliveryTheorems.SkippedForGood | lib/pheidippides-messenger/src/subscriptions_handler.rs:39-51 | a message cut short and missed by the history is never delivered on that subscription, in any continuation |
| DeliveryTheorems.SkippedRecipient | lib/pheidippides-messenger/src/subscriptions_handler.rs:107-110 | for every capacity, a reachable state in which a failed subscription's stale channel makes a listening recipient miss a message |
| DeliveryLiveness.RunIsPipeRun | lib/pheidippides-utils/src/async_utils.rs:13-119 | whatever the system does, each subscription's tasks make a legal run of their own |
| DeliveryLiveness.ClosedPipelineDetaches | lib/http-server/src/request.rs:57-73 | after the connection closes, as many fair rounds as there are running tasks stop them all |
| DeliveryLiveness.ClosedSubscriptionIsReleased | lib/pheidippides-messenger/src/subscriptions_handler.rs:56-72 | then the broadcast receiver is gone, and the next cleanup removes the channel if it was the user's only one |
| DeliveryLiveness.CanDrain | lib/pheidippides-utils/src/async_utils.rs:52-119 | a subscription that is read and not too far behind can always deliver everything it is due by its own steps |
| Progress.WritersGetIn | lib/pheidippides-messenger/src/subscriptions_handler.rs:56-99 | from every reachable state, the publishes under way can finish by themselves, and then anybody can register and the cleanup can run |
| Progress.RegisteredCanStream | lib/pheidippides-messenger/src/subscriptions_handler.rs:101-131 | a registered subscription can always start to stream, whichever store answers, and can fail instead exactly if it has a starting point |
| Progress.NewSendIsDecided | lib/pheidippides-messenger/src/messenger.rs:82-85 | a new send can always be stored, at the end of the log, and can be refused instead; either decides it |
| Progress.RefusedForGood | lib/pheidippides-messenger/src/messenger.rs:82-85 | in every continuation, the message of a refused send is neither stored nor delivered on any subscription |
| Progress.MessageCanArrive | lib/pheidippides-messenger/src/messenger.rs:68-92 | a new message to or from a user whose connection is read and has received everything can always be stored, published and delivered there, unless the sender's channel is stale |
| Progress.CutOffComesToAnEnd | lib/pheidippides-utils/src/async_utils.rs:13-119 | a stream that was cut off does not leave its client waiting: its own tasks can always deliver what it had received and then end it |
| Progress.ReleasedInThreeRounds | lib/pheidippides-utils/src/async_utils.rs:13-119 | after the connection has closed, two fair rounds release a stream without a starting point, and three any stream |
| Pipelines.StepConserves | lib/pheidippides-utils/src/async_utils.rs:13-119 | while the connection reads, no task loses, repeats or reorders anything |
| Pipelines.RunConserves | lib/pheidippides-utils/src/async_utils.rs:13-119 | over a whole run the connection gets a prefix of what was in flight and accepted, and the rest is in the queues |
| Pipelines.EndSeenAfterEverything | lib/pheidippides-utils/src/async_utils.rs:34-37 | when the connection sees the end of its stream, everything that was accepted has reached it and every task has stopped |
| Pipelines.LastRunningSeesClosed | lib/pheidippides-utils/src/async_utils.rs:26-29 | after the connection closes, some running task can always notice it |
| Pipelines.FairRoundStopsOne | lib/pheidippides-utils/src/async_utils.rs:26-29 | every fair round stops at least one more task and restarts none |
| Pipelines.ShutdownCompletes | lib/pheidippides-utils/src/async_utils.rs:13-119 | so the whole chain stops, down to the stage that holds the broadcast receiver |
| Stages.RunStage | lib/pheidippides-utils/src/async_utils.rs:23-48 | the loop hands on what the filter keeps of what it received, up to the first closing |
| Stages.StageIsPipeRun | lib/pheidippides-utils/src/async_utils.rs:13-119 | the loop of any stage, whatever the other stages do between its rounds, is a run of that stage in the pipeline: it hands on exactly what its polls amount to, refused and closed ones included, and runs on exactly if they let it |
| Stages.BroadcastLoopFilters | lib/pheidippides-messenger/src/subscriptions_handler.rs:119-126 | with the filter over the history's ids the loop hands on what the history did not hold |
| Handler.SubscriptionsHandler.constructor | lib/pheidippides-messenger/src/subscriptions_handler.rs:21-31 | the map starts empty |
| Handler.SubscriptionsHandler.SendToSubscribers | lib/pheidippides-messenger/src/subscriptions_handler.rs:74-79 | offers a message to one user's channel, and fails exactly if that is in the map without receivers |
| Handler.SubscriptionsHandler.HandleNewMessage | lib/pheidippides-messenger/src/subscriptions_handler.rs:33-54 | publishes to the sender and then to a different recipient, and stops at a stale sender's channel |
| Handler.SubscriptionsHandler.CleanUp | lib/pheidippides-messenger/src/subscriptions_handler.rs:60-70 | keeps exactly the entries with receivers |
| Handler.SubscriptionsHandler.Register | lib/pheidippides-messenger/src/subscriptions_handler.rs:88-99 | finds or creates the user's channel and adds a receiver at its current end |
| Handler.SubscriptionsHandler.QueueHistory | lib/pheidippides-messenger/src/subscriptions_handler.rs:113-117 | queues the history in order and remembers exactly its ids |
| Handler.PublishRefines | lib/pheidippides-messenger/src/subscriptions_handler.rs:33-54 | the two publish steps of the transition system do to the map what the object's method does, and are cut short in the same cases |
| Handler.CleanupRefines | lib/pheidippides-messenger/src/subscriptions_handler.rs:63-67 | so does the cleanup step |
| Handler.RegisterRefines | lib/pheidippides-messenger/src/subscriptions_handler.rs:88-99 | so does the registration step |
| Reconnect.SendNowIsRun | lib/pheidippides-messenger/src/messenger.rs:82-89 | a send without interruption is a run of the general system |
| Reconnect.AnythingElseCanHappen | lib/pheidippides-messenger/src/messenger.rs:74-89 | around such a client everything can happen that the server allows, but for the steps of interrupted sends that involve its user |
| Reconnect.OverlapFiltered | lib/pheidippides-messenger/src/subscriptions_handler.rs:113-126 | a history and the live part that overlaps it, filtered, make up the user's part of the log after the starting point |
| Reconnect.ConnectionStream | lib/pheidippides-messenger/src/subscriptions_handler.rs:88-131 | what one connection is due is the user's part of the log after its starting point, or a beginning of it, if no message to that user was cut short and, with the relational store, the user's messages were stored in the order of their timestamps |
| Reconnect.ReconnectingMissesNothing | lib/pheidippides-web/src/routing/actions.rs:183-203 | with either store, if the sends that involve this user are uninterrupted and none of them is cut short for it, and for the relational store its messages are stored in the order of their timestamps, a client that reconnects with its last id has received, over all connections, a beginning of its messages in order and each once; they begin right after its first starting point, or without one at the last connect before it had received anything; sends between others interleave freely |
| Reconnect.DrainedClientIsUpToDate | lib/pheidippides-web/src/routing/actions.rs:183-203 | and all of them once its connection has drained and it has read it |
| Progress.ClientCanCatchUp | lib/pheidippides-web/src/routing/actions.rs:183-203 | such a client, as long as its connection is read and not too far behind, can always catch up: some continuation gives it all of its messages |
| Reconnect.OriginFollowsFirst | lib/pheidippides-web/src/routing/actions.rs:178-191 | after every run, the place in the log from which the client is owed messages is right after its first starting point, or without one the end of the log at the last connect before it had received anything |
| Reconnect.LostBeforeFirstEvent | lib/pheidippides-web/templates/chat.html:186 | without a starting point, a client that has caught up has missed exactly its messages stored before the last connect at which it had received nothing |
| Reconnect.MessageBeforeFirstEventIsLost | lib/pheidippides-messenger/src/subscriptions_handler.rs:101-105 | a run in which such a client has caught up and has missed a message that was stored and published after its first registration |
| Resumption.GotExactly | lib/pheidippides-messenger/src/subscriptions_handler.rs:113-128 | of what a connection wrote, a client that has got a beginning up to some message has got exactly the history up to it, or the whole history and what the channel accepted before it |
| Resumption.MissedExactly | lib/pheidippides-web/src/routing/actions.rs:183-203 | under every interleaving and with either store, exactly which messages a client has missed that got any part of what a connection had written and came back with the last message of that part, when the second connection has drained: those lost in flight and those cut short included |
| Resumption.RepeatedExactly | lib/pheidippides-web/src/routing/actions.rs:183-203 | and exactly which messages it has got on both connections |
| Resumption.MissedByAllExactly | lib/pheidippides-web/src/routing/actions.rs:183-203 | the messages that it has missed over any number of earlier connections, of each of which it may have got less than was written |
| Resumption.OvertakenExactly | lib/pheidippides-messenger/src/messenger.rs:82-89 | of the completed messages, the missed ones are exactly the overtaken ones: not since the last message got by the order of the store, published by the time of the reconnection, not in the first history, and, if the last message came live, not accepted by the channel before it |
| Resumption.RegisteredLater | lib/pheidippides-messenger/src/subscriptions_handler.rs:88-99 | whatever has been offered to a user by now counts as published before every subscription that registers later |
| Resumption.GoneFromLater | lib/pheidippides-messenger/src/subscriptions_handler.rs:88-131 | a message whose publishing is over is never delivered on a later connection that starts from a message it is not since, by the order of the store |
| Resumption.MissedForGood | lib/pheidippides-messenger/src/subscriptions_handler.rs:88-131 | in every continuation, a missed message is never delivered on the second connection, nor on a later one from whose starting point it is not reached, nor on the first if that was closed without it |
| Interleavings.OverlappingSendsLeaveGap | lib/pheidippides-messenger/src/messenger.rs:74-89 | for every capacity, a reachable state in which a client that reconnects with its last id has missed a completed message because two sends were stored in one order and published in the other, and does not get it in any continuation, on these connections or on a later one resumed after it |
| Interleavings.LostInFlight | lib/pheidippides-messenger/src/subscriptions_handler.rs:113-131 | for every capacity, a reachable state in which a client got only the first of two messages written to it, comes back with it, and never gets the other one on the resumed connection, in any continuation, because that one was stored first |
| Interleavings.OverlappingSendsRepeat | lib/pheidippides-messenger/src/messenger.rs:74-89 | for every capacity, a reachable state in which a client that comes back with its last id has got a message on both connections |
| Interleavings.LateStoredIsLeftOut | lib/postgres-db/src/lib.rs:372-375 | for every capacity, a reachable state in which a client of the relational store starts from a message and never gets, in any continuation, the one that was stored after it with an earlier timestamp, although both are completed |
| Interleavings.StoresDiffer | lib/postgres-db/src/lib.rs:349-401 | the two stores' answers for that log: nothing from the relational one, the later stored message from the in-memory one |
| Messenger.Messenger.SendMessage | lib/pheidippides-messenger/src/messenger.rs:68-92 | stores and then publishes; a refused store changes nothing, and an abandoned publish does not fail the send |
| Messenger.Messenger.CreateUser | lib/pheidippides-messenger/src/messenger.rs:136-153 | inserts the user unless the name is taken, then the credential; a refused credential leaves the user behind |
| Messenger.Messenger.VerifyUser | lib/pheidippides-messenger/src/messenger.rs:117-134 | looks the name up and then compares the password |
| Messenger.CreationIsRun | lib/pheidippides-messenger/src/messenger.rs:136-153 | what creating a user does to the tables is what a run of the account system does, of an insertion and a stored credential, or a stop where the credential is refused |
| Messenger.CreatedCanLogIn | lib/pheidippides-messenger/src/messenger.rs:117-153 | after a creation in whatever store, a login under the name in any case succeeds with exactly its password |
| Messages.AfterKnown | lib/mock-db/src/lib.rs:274-275 | skipping to a known id and past it leaves exactly what follows it |
| Messages.AfterUnknown | lib/mock-db/src/lib.rs:274-275 | skipping to an unknown id leaves nothing |
| Messages.InboxMembers | lib/mock-db/src/lib.rs:276-293 | the since query's filter keeps exactly the user's messages |
| Messages.InboxIsOwn | lib/mock-db/src/lib.rs:276-293 | it keeps a message exactly for its two ends |
| Queries.BeforeKnown | lib/mock-db/src/lib.rs:237-243 | skipping backwards to a known id leaves the messages before it, latest first |
| Queries.ChatReverse | lib/mock-db/src/lib.rs:238-258 | filtering a chat backwards is the chat backwards |
| Queries.ChatMembers | lib/mock-db/src/lib.rs:244-258 | the chat query's filter keeps the stored messages that match it, and no others |
| Queries.ChatIsBetween | lib/mock-db/src/lib.rs:244-258 | a chat holds exactly the stored messages whose two ends are the two users, in either direction |
| Queries.PageIsShared | lib/postgres-db/src/lib.rs:292-301 | both users of a chat get the same page, from any starting point |
| Queries.ChatOfInbox | lib/mock-db/src/lib.rs:244-293 | a chat of a user is a part of that user's messages, in the same order |
| Queries.PageSize | lib/pheidippides-messenger/src/data_access.rs:3 | a page has fifty messages, or all of the chat if there are fewer |
| Keyset.RankedListingIsUnique | lib/postgres-db/src/lib.rs:321 | rows ordered by a strictly falling rank can be listed in one way only |
| Keyset.ChatQueriesAgree | lib/postgres-db/src/lib.rs:279-347 | without a starting point or from a known one, the keyset query with its limit returns the positional page and nothing else; which messages that is, is `Queries.ChatIsBetween` |
| Keyset.UnknownStartDiffers | lib/postgres-db/src/lib.rs:309-319 | from an unknown starting point it returns the latest page where the in-memory store returns nothing; they agree exactly when the chat is empty |
| Keyset.SinceQueriesAgree | lib/postgres-db/src/lib.rs:349-401 | from any starting point, the keyset since query returns what the positional one does |
| Keyset.KeysAreOrdered | lib/postgres-db/src/lib.rs:309-319 | the (timestamp, id) keys of different messages are in a strict total order, by time and at the same time by id |
| ChatList.NewMessageMovesToTop | lib/mock-db/src/lib.rs:193-224 | after a new message the recomputed list is its partner followed by the old list without that partner |
| ChatList.ChatsAreOrdered | lib/mock-db/src/lib.rs:193-224 | the first-seen list holds each partner once, ordered by the latest message |
| ChatList.ListedExactly | lib/mock-db/src/lib.rs:193-224 | the list names a partner exactly if the chat with that partner is not empty |
| ChatList.MessageIsInPartnersChat | lib/mock-db/src/lib.rs:198-217 | every message of a user is in the chat with its partner and in no other chat of the user |
| ChatList.ChatRowIsLatest | lib/postgres-db/src/lib.rs:212-248 | the union of the two grouped selects, grouped again, gives each partner with the time of the latest message in either direction |
| ChatList.GroupedOnce | lib/postgres-db/src/lib.rs:216-232 | each direction is grouped into one row, with the time of its latest message |
| ChatList.ChatListsAgree | lib/postgres-db/src/lib.rs:208-277 | the union, group-by-maximum, order-by query returns the first-seen list and nothing else |
| Store.ChatUsersAgree | lib/postgres-db/src/lib.rs:253-271 | joined with the users' names, the relational chat list returns the in-memory one, ids and names, and nothing else, exactly if every partner has a row in the users table |
| Store.Db.CreateUser | lib/mock-db/src/lib.rs:168-182 | appends the user unless the name is taken up to case |
| Store.Db.CreateMessage | lib/mock-db/src/lib.rs:298-309 | appends the message and changes nothing else |
| Store.Db.UpdateAuthentication | lib/mock-db/src/lib.rs:334-352 | replaces the user's credential in place or appends the first one, and returns the earlier one |
| Store.Db.FindUsersChats | lib/mock-db/src/lib.rs:184-226 | the fold over named users lists the first-seen partners, each with the name on record |
| Store.FirstSeenNamed | lib/mock-db/src/lib.rs:219-224 | dropping repeated users is dropping repeated ids |
| Store.KnownUsersAreNamed | lib/mock-db/src/lib.rs:186-207 | a user with a record is shown under the name of that record |
| Store.UnknownUsersAreNamed | lib/mock-db/src/lib.rs:199-214 | a user without a record is shown under a text that says so |
| Store.UpdateAuthAt | lib/mock-db/src/lib.rs:340-351 | where the update happens: at the user's first record, else at the end |
| Browser.ChatPage.ChatWith | lib/pheidippides-web/templates/chat.html:36-53 | switches to the chat at once and asks for its latest messages, while the buffer stays as it is |
| Browser.ChatPage.LoadMessages | lib/pheidippides-web/templates/chat.html:60-63 | asks for the latest messages of the chat that is open now |
| Browser.ChatPage.MessagesLoaded | lib/pheidippides-web/templates/chat.html:64-73 | when the answer arrives it replaces the buffer, whichever chat is open by then; without a session the page is left alone and leads to the login |
| Browser.ChatPage.LoadMoreOldMessages | lib/pheidippides-web/templates/chat.html:82-96 | asks for what comes before the first message shown now, or for the latest page when none is shown, unless it is known that there are no older ones |
| Browser.ChatPage.OldMessagesLoaded | lib/pheidippides-web/templates/chat.html:98-111 | when the answer arrives it is put in front of whatever is shown by then, or an empty one ends the paging; without a session the page is left alone |
| Browser.ChatPage.MoveChatToTop | lib/pheidippides-web/templates/chat.html:211-230 | takes the chat's node out if it is there and puts it first |
| Browser.ChatPage.OnMessage | lib/pheidippides-web/templates/chat.html:188-203 | pushes a message whose two ends are the user and the open chat, in either direction, and moves its chat to the top unless a search is shown |
| Browser.HandleEvents | lib/pheidippides-web/templates/chat.html:188-203 | handling events one at a time appends the open chat's messages and moves every chat in turn |
| Browser.ChatListStaysCurrent | lib/pheidippides-web/templates/chat.html:198-216 | a list updated by moves to the top equals the recomputed list, for every log and every run of new messages |
| Browser.LatestPage | lib/pheidippides-web/src/routing/json.rs:89-96 | the first page is the end of the chat, oldest first |
| Browser.FirstPageShows | lib/pheidippides-web/templates/chat.html:60-73 | a chat that was just loaded shows its last fifty messages, oldest first, or all of them if there are fewer |
| Browser.NoSessionChangesNothing | lib/pheidippides-web/src/routing/json.rs:75-88 | without a session the answer holds no messages, and no request changes what is shown |
| Browser.PageBefore | lib/pheidippides-web/src/routing/json.rs:68-96 | the page before a message is the piece of the chat that ends right before it |
| Browser.PagingRebuildsChat | lib/pheidippides-web/templates/chat.html:82-114 | from the first load on, with requests answered in any order, any number outstanding, the log growing and messages pushed in between: the page shows an end of the chat as of the first load and then the pushed messages if and only if every answer is to a request for what comes before the first message shown when it arrives; and then k answers make it the last 50 (k + 1), in order and each once |
| Browser.CurrentAnswersExtend | lib/pheidippides-web/templates/chat.html:82-114 | the second half holds whatever else is still outstanding when the chat is loaded, requests of other chats included |
| Browser.OneAtATimeIsCurrent | lib/pheidippides-web/templates/chat.html:82-96 | if older messages are asked for only when nothing is outstanding, every answer is such an answer |
| Browser.DoubleClickRepeats | lib/pheidippides-web/templates/chat.html:82-108 | in a chat of more than 50 messages, two clicks before the first answer make the page show the same older page twice |
| Browser.LoadShowsOpenChat | lib/pheidippides-web/templates/chat.html:60-73 | the answer to a load leaves only messages of the open chat exactly if it was asked for that chat or is empty |
| Browser.LateLoadShowsOtherChat | lib/pheidippides-web/templates/chat.html:36-73 | two chats opened in a row, the first one answered last: its messages stay under the second one |
| Browser.PagingEndsExactly | lib/pheidippides-web/templates/chat.html:107-111 | under the same condition, a chat of n messages is known to be complete exactly from request number ceil(n / 50) + 1 on, and then the page shows all of it |
| Browser.CompleteAsksNothing | lib/pheidippides-web/templates/chat.html:82-85 | and from then on, exactly, a click asks for nothing more |
| Browser.EmptyChat | lib/pheidippides-web/templates/chat.html:89-90 | an empty chat ends at the next answer exactly if nothing was stored meanwhile |
| Accounts.FindUserFinds | lib/pheidippides-messenger/src/data_access.rs:30-46 | looking a name up finds a user of that name up to case, and nothing exactly if there is none |
| Accounts.UpdateAuthStores | lib/mock-db/src/lib.rs:315-352 | after an update the user has the new credential and everybody else the old one |
| Accounts.StepKeepsInv | lib/pheidippides-messenger/src/messenger.rs:136-153 | every step of every creator keeps names unique, users owned by one creator, and credentials with completed creations only |
| Accounts.NamesStayUnique | lib/mock-db/src/lib.rs:168-182 | in every run of concurrent creators, no two users have names that are equal up to case |
| Accounts.LoginMatchesCreation | lib/pheidippides-auth/src/lib.rs:60-102 | a login returns an id exactly when a completed creation under that name, up to case, and with that password returned it |
| Accounts.LoginAmidCreations | lib/pheidippides-messenger/src/messenger.rs:117-134 | with creators running between its two reads, a login succeeds if the creation had completed by the first and only if it had by the second |
| Accounts.HalfCreatedBlocksName | lib/pheidippides-messenger/src/messenger.rs:136-150 | a creation that stops between its two writes blocks its name for good: nobody can log in under it or take it |
| FormData.KeyValuePairs.NextKey | lib/pheidippides-utils/src/serde/form_data.rs:259-274 | returns the decoded key and moves past the equals sign, ends at the end of the input, and fails without an equals sign |
| FormData.KeyValuePairs.NextValue | lib/pheidippides-utils/src/serde/form_data.rs:276-295 | returns the decoded value and moves past the ampersand, or takes the rest; fails at the end of the input |
| FormData.FromStr | lib/pheidippides-utils/src/serde/form_data.rs:128-135 | driving the machine to its end gives all pairs or the first error, on every input |
| FormData.InputShrinks | lib/pheidippides-utils/src/serde/form_data.rs:259-295 | every key and every value that is found leaves less input |
| FormData.DecodeEncoded | lib/pheidippides-utils/src/serde/form_data.rs:358-362 | replacing plus signs and decoding percent triplets undoes the encoding of section 5.2 of the WHATWG URL Standard on every byte string |
| FormData.ParseSerialized | lib/pheidippides-utils/src/serde/form_data.rs:259-295 | what the machine makes of any serialized list: the list, or an error if its last value is empty |
| FormData.RoundTripExactly | lib/pheidippides-utils/src/serde/form_data.rs:280-282 | the round trip holds exactly for the lists that are empty or end in a non-empty value |
| FormInputs.TripletDecodes | lib/pheidippides-utils/src/serde/form_data.rs:358-362 | a percent sign and two hexadecimal digits, in lower or upper case, decode to the byte of that number |
| FormInputs.OtherDecodes | lib/pheidippides-utils/src/serde/form_data.rs:358-362 | a plus sign decodes to a space, and every other byte that begins no triplet to itself |
| FormInputs.EveryInput | lib/pheidippides-utils/src/serde/form_data.rs:259-295 | every input is pairs that end in ampersands and one of four ends: nothing, a last pair, a key without a value, or text without an equals sign |
| FormInputs.ParseExactly | lib/pheidippides-utils/src/serde/form_data.rs:259-295 | the result on every input: all pairs decoded in order, or the error of the two bad ends with the text that is left |
| EventStream.SendEvent | lib/http-server/src/event_source.rs:69-87 | builds the event's text from its name, the lines of its data and its id |
| EventStream.HandleEventStream | lib/http-server/src/event_source.rs:32-64 | writes the retry line, then one item for each wake-up, until the client goes or the queue ends |
| EventStream.WrittenExactly | lib/http-server/src/event_source.rs:40-62 | up to the first wake-up that ends the loop, the item written is the event where one was received and a keep-alive where the timer ran out; nothing is written after that |
| EventStream.ReceivedAreDispatched | lib/http-server/src/event_source.rs:32-87 | from what the loop writes, a client dispatches exactly the events that were received before the loop ended, in order, exactly when all of them can be carried |
| EventStream.CrLfIsLf | lib/http-server/src/event_source.rs:77-79 | data with CR only before LF is written as the data without those CR |
| EventStream.DispatchedAt | lib/http-server/src/event_source.rs:69-87 | each with its data, its id and its name, or "message" without a name |
| EventStream.StreamDelivers | lib/http-server/src/event_source.rs:32-87 | what a client following section 9.2.6 of the WHATWG HTML Standard dispatches, its reconnection time and its last id, for events without CR |
| EventStream.ReadKeepAlive | lib/http-server/src/event_source.rs:42-45 | a keep-alive writes something, and means nothing to a client, whatever it has read before |
| EventStream.ReadKeepsCrFree | lib/http-server/src/event_source.rs:77-79 | such a client never dispatches a CR, whatever is written |
| EventStream.RoundTripExactly | lib/http-server/src/event_source.rs:69-87 | the client dispatches exactly the written events with their ids exactly when every data is non-empty, has no CR and does not end in LF, with keep-alives anywhere |
| HttpRequest.Request.TryFromStream | lib/http-server/src/request.rs:92-128 | reads the head of a request as the grammar function says, and fails on lines that are not UTF-8; its header loop ends on every input |
| HttpRequest.Request.Content | lib/http-server/src/request.rs:142-159 | reads exactly as many bytes as announced, or fails without a length, with a malformed one, at the end of the input, or on bytes that are not the encoding of any text |
| HttpRequest.MethodNameParses | lib/http-server/src/method.rs:29-46 | every method's printed name parses back to that method through the case-insensitive table |
| Utf8.ValidConcat | lib/http-server/src/request.rs:157 | after valid UTF-8, what follows decides whether the whole is valid |
| Utf8.ValidExactly | lib/http-server/src/request.rs:157 | bytes are valid exactly if they are the encoding of some sequence of Unicode scalar values by section 3 of RFC 3629 |
| Utf8.EncodingIsUnique | lib/http-server/src/request.rs:157 | and of one sequence only |
| HttpRequest.ReadPrintedHeaders | lib/http-server/src/request.rs:105-120 | the header loop reads printed header lines back, the last value of each name in whatever case |
| HttpRequest.RequestRoundTrip | lib/http-server/src/request.rs:92-128 | parsing a printed request recovers method, target, header map and the bytes of the body |
| HttpRequest.AnnouncedBodyIsRead | lib/http-server/src/request.rs:142-157 | a body announced by its decimal length is read as that many bytes |
| HttpRequest.ReadBack | lib/http-server/src/request.rs:92-159 | through the object's methods, a printed request comes back with exactly its body if that is the encoding of some text, and an error otherwise |
| RequestInputs.ParseMethodExactly | lib/http-server/src/method.rs:29-46 | a word is understood as a method exactly if it is that method's name in any case; anything else is refused |
| RequestInputs.RequestLineExactly | lib/http-server/src/request.rs:100-103 | a request line is accepted exactly if its first word names a method and a second word follows, which is the target |
| RequestInputs.RequestLineErrors | lib/http-server/src/request.rs:100-103 | the error is that of the method exactly if the first word names none, otherwise that of the line |
| RequestInputs.EveryHead | lib/http-server/src/request.rs:105-120 | every input is header lines and then something that the loop stops at |
| RequestInputs.HeadersExactly | lib/http-server/src/request.rs:105-120 | the result on every input: the last value of each name if the loop stops at the empty line, otherwise the error for the line that it stops at, the end of the input included |
| RequestInputs.HeadIsText | lib/http-server/src/request.rs:92-128 | a request is accepted only if its whole head is valid UTF-8, and what follows the head is left for the body |
| RequestInputs.SplitHeaderExactly | lib/http-server/src/request.rs:115-117 | name and value are what stands around the first colon that a space follows |
| RequestInputs.TrimExactly | lib/http-server/src/request.rs:118 | a value loses the white space at its end and nothing else |
| RequestInputs.ParseUsizeExactly | lib/http-server/src/request.rs:148-149 | a length is understood exactly if it is the decimal numeral of a number below 2^64, perhaps after a plus sign and zeros |
| RequestInputs.ContentLengthExactly | lib/http-server/src/request.rs:142-155 | the length, or which of the two errors, for every header map |
| HttpResponse.HttpResponseBuilder.SetHeader | lib/http-server/src/http_response.rs:64-67 | sets a header under its lowered name |
| HttpResponse.HttpResponseBuilder.SetContent | lib/http-server/src/http_response.rs:74-104 | each of the four content setters sets the content type |
| HttpResponse.HttpResponseBuilder.Build | lib/http-server/src/http_response.rs:34-57 | sets the length when there is a body and prints the status line and every header once, in the order that the map yields; what a client reads of them is `HttpClient.StatusIsRead` and `HttpClient.BuiltResponseReadsBack` |
| HttpResponse.HttpResponseBuilder.PrintMap | lib/http-server/src/http_response.rs:45-48 | whatever order the map yields, every entry is printed exactly once |
| HttpResponse.LastCallsCount | lib/http-server/src/http_response.rs:59-104 | status, body and each header are those of the last call that set them |
| HttpResponse.StatusOfCalls | lib/http-server/src/http_response.rs:21-32 | without a call that sets the status it is OK, otherwise that of the last such call |
| HttpResponse.ContentTypeOfCalls | lib/http-server/src/http_response.rs:74-104 | each of the four content setters leaves its media type with the charset, as text |
| HttpClient.HeadReadsBackExactly | lib/http-server/src/http_response.rs:34-57 | for every sequence of calls and every order of the headers, a client that reads fields by section 5 of RFC 9112 reads the last status and every header with its last value exactly if all headers that are sent are clean: the name a token, the value without CR, LF, NUL and surrounding white space |
| HttpClient.BuiltResponseReadsBack | lib/http-server/src/http_response.rs:34-105 | and it reads the body back exactly if, besides, no transfer coding and, without a body, no length but zero is announced |
| HttpClient.StatusIsRead | lib/http-server/src/http_response.rs:114-123 | the code and the reason that a client reads, as text: 200 OK, 400 Bad Request, 303 See Other, 500 Internal Server Error |
| HttpClient.UnsetStatusIsRead | lib/http-server/src/http_response.rs:21-32 | a response whose status nobody set is read as 200 OK |
| HttpClient.ContentTypeIsRead | lib/http-server/src/http_response.rs:74-104 | the content type that a client reads after the last content setter, as text |
| HttpClient.AnnouncedLengthIsBodys | lib/http-server/src/http_response.rs:39-44 | with a body, the length that the client reads is the body's, even when a caller had set another one |
| HttpClient.CleanCallsSendClean | lib/http-server/src/http_response.rs:59-104 | if every header that callers set is clean, all headers that are sent are |
| HttpClient.StreamFollowsHead | lib/http-server/src/event_source.rs:24-38 | what is written after the head of an event stream is, for such a client, the body of the response |
| HttpClient.ReadFieldsPrintable | lib/http-server/src/http_response.rs:45-48 | such a client never reads a field whose name is not a token or whose value has a CR, LF or NUL, whatever is written |
| Text.LowerTwice | lib/pheidippides-utils/src/utils.rs:3-10 | lowering a key again changes nothing, so a printed key names the same entry |
| Text.LowerExactly | lib/pheidippides-utils/src/utils.rs:3-10 | two names have the same key exactly if they are the same but for the case of their ASCII letters |

## Left out

- Sockets, TLS, the accept loop, connection pools, Ctrl-C and real time: input and output. A timer is a step that may happen at any moment, and partial writes are not modelled.
- The broadcast and mpsc channels of tokio themselves: taken as FIFO queues, a window of the last messages (its size is a parameter of at least 1; the source asks for 100 and the library may round up), an error on sending without receivers, and an error on reading too far behind.
- Poisoned locks, and panics in general.
- The conversion of messages into events by the last forwarding task, and JSON: the pipeline carries messages, `EventStream` starts from events.
- The drain after a connection closes is one step with the closing.
- A client whose very first starting point is unknown to the store: `Reconnect` connects from a known one or from none. An id that is stored between registration and history would put older messages after newer ones.
- Sessions, cookies, route dispatch, HTML rendering, scrolling, login and signup pages, and the parse failures of the JSON routes: single-map operations or interface.
- The choice between the header and the parameter as starting point is modelled, parsing them as UUIDs is not.
- Unicode case and white space: user names are lowered by an arbitrary function, header names and methods as ASCII; white space is ASCII. A character of a request, response or event stands for a byte.
- The argon2 hash is ideal: a stored hash verifies exactly its own password. UUIDs are fresh numbers.
- Substring search, `fetch_user` and the error-wrapping methods of the messenger: filters and wrappers without a property of their own.
- SQL execution, isolation, migrations and temporary tables: only what each query returns for the rows it sees. Equal timestamps are outside the agreement theorems; in the delivery theorems the relational store may list them in any order.
- Resumption.OvertakenExactly: for the relational store it assumes that no two stored messages have equal timestamps, because the history may list those in either order; `MissedExactly` covers them by the history's own order.
- Reconnect.ReconnectingMissesNothing: for the relational store it assumes that the client's messages are stored in the strict order of their timestamps; `DeliveredExactly` and `MissedExactly` say what comes otherwise.
- Keyset.ChatQueriesAgree: needs strictly increasing timestamps, because the SQL orders by timestamp only and breaks ties arbitrarily.
- Browser.ChatListStaysCurrent: handles one event at a time; while the page waits for a new chat's node, a later event may overtake it in the browser.
- Browser.PagingRebuildsChat: assumes a message in the chat at the first load (`EmptyChat` covers the other case) and nothing outstanding then; with requests left over from before, `CurrentAnswersExtend` gives one direction, because a late answer of another chat can be empty or of the same one can fit by chance. Pushed messages are whatever the live stream brings, and the page does not filter them against what it loaded.
- Browser.ChatPage.MessagesLoaded: the only failure modelled is a missing session, not a failing fetch; the page without an open chat is left out.
- EventStream.ReceivedAreDispatched: assumes event names that are not empty, and names and ids on one line and ids without NUL; the program sends no name and a UUID as id.
- KeepingUp.StaysAttached: that a subscription is never further behind than the channel reaches back is its condition, since how fast tasks run is not part of the model.
- Handler.SubscriptionsHandler.Register: creates a channel only when one is needed, where the source creates one and drops it if the map has one already.
- Of serde only the two-call protocol that collects all pairs is modelled, not typed fields, ignored fields or the unsupported kinds.
- The calls that answer with a particular kind of response are sequences of builder calls, and every sequence of builder calls is covered.
