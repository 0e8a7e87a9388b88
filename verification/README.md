# Verified model of a WebSocket chat server

The server accepts WebSocket connections, reads masked client frames, joins fragmented messages, routes chat messages
to the connections of their recipients, keeps undelivered messages for users who are offline, watches for dead
connections with pings, and passes messages on to an event notifier that retries and falls back. This project models
those parts in Dafny and proves what they keep over whole runs.

Protocols are state machines: a `State`, a `Step` per handler or critical section, and a `Run` over an arbitrary
sequence of events, so that theorems about `Run` hold for every interleaving of those steps. Beside most machines
stands a class with the server's own fields, whose methods are written the way the server's are and are proved to take
exactly the steps of the machine; the lock of `ScopeRunner.dfy` is a machine of atomic operations only. The codecs are methods with the server's loops, proved against definitions that do not mention them.

| file | what it models |
|---|---|
| `WsFrame.dfy` | frame headers, lengths and masks (sections 5.2 and 5.3 of RFC 6455) |
| `SendQueue.dfy`, `SendRuns.dfy` | a connection's send queue on its strand, and what holds in all its runs |
| `FrameReader.dfy` | the chain of reads that takes client frames off a connection |
| `EventNotifier.dfy` | retries and fallbacks of the event notifier |
| `ChatRouting.dfy`, `ChatRoutes.dfy`, `ChatServer.dfy` | routing, the undelivered queue, delivery statuses; the server object |
| `ChatCascade.dfy` | what delivery statuses can cause over a run |
| `ChatConnection.dfy` | the send queue seen as the outbox that routing keeps |
| `ChatStatistics.dfy`, `ChatLedger.dfy` | the counters, summed and user by user, and the logs behind them |
| `FragmentBuffer.dfy` | messages in fragments |
| `ConnectionStorage.dfy` | registered connections and the ping/pong watchdog |
| `ScopeRunner.dfy` | the lock that lets handlers be cancelled |
| `ChunkedBody.dfy` | HTTP bodies in chunked coding (section 4.1 of RFC 7230) |
| `Base64.dfy`, `Percent.dfy`, `QueryString.dfy`, `Unid.dfy` | codecs and message ids |
| `Common.dfy`, `CHex.dfy`, `Lists.dfy` | shared types; hexadecimal numbers as the C library reads them; sums and concatenations |

## What the code does not do

Where a property that one would expect is false of the code, the model keeps the code's behaviour, a lemma shows a
concrete run or value, and another states exactly when the property holds.

- Bytes that came together with the handshake delay the frames behind them: all frames up to the first close frame are
  answered if and only if the handshake took no more bytes than follow that frame (`FrameReader.AllAnsweredIff`,
  `FrameReader.LastFrameWaits`).
- `4 + length` wraps for lengths within 4 of 2^64, which the default limit of the WebSocket layer admits; the chat
  server sets a smaller limit (`FrameReader.NeedIsExactIff`, `FrameReader.WrappedRead`).
- 64-bit frame lengths keep their top bit clear only below 2^63 (`WsFrame.LengthBitClearIff`, `WsFrame.TopBitSet`).
- A failed write discards the frames queued behind it without running their callbacks, so a message can be lost: frames
  are discarded if and only if a failed write finds some behind it (`ChatRouting.DiscardedIff`,
  `ChatRouting.SecondMessageLost`).
- Redelivery to a user without a connection never ends (`ChatRouting.RedeliverEndsIff`,
  `ChatRouting.RedeliveryStuck`).
- A fallback of the event notifier is tried at once, without the retry interval (`EventNotifier.HeldBackIff`,
  `EventNotifier.FallbackNotSpaced`).
- Bytes that a chunked request read past its last chunk end up in front of the content: a stream always yields its
  message's data if and only if nothing follows the message (`ChunkedBody.AlwaysDataIff`,
  `ChunkedBody.SurplusComesFirst`).
- `sendClose` tests and sets its flag in two steps, so that two threads can both post a close frame: at most one is
  posted if and only if no call tests the flag while another is between the two (`SendRuns.OneCloseFrameIff`,
  `SendRuns.TwoCloseFrames`).
- Fragments are kept per user, not per connection, so two connections of one user mix their messages
  (`FragmentBuffer.JoinsOwnIffAlone`, `FragmentBuffer.ConnectionsMix`).
- A pong recorded before the ping's write callback runs does not save its connection: a sweep goes by the last mark
  (`ConnectionStorage.SweepIsExact`, `ConnectionStorage.EarlyPongIsLost`).
- The percent encoder leaves percent signs as they are, so they come back only where no code fits behind them
  (`Percent.GoesThroughIff`, `Percent.PercentSignLost`).
- Overlapping calls of the id generator return the same counter value (`Unid.DistinctIffNoOverlap`,
  `Unid.OverlapRepeats`).

## Model

| member | source | states |
|---|---|---|
| `WsFrame.PutHeader` | src/base/ws/WebsocketServer.hpp:299-318 | the loop that puts length bytes writes the header that section 5.2 of RFC 6455 prescribes, for every length below 2^64 |
| `WsFrame.DecodeEncode` | src/base/ws/WebsocketServer.hpp:299-318 | a decoder for unmasked frames recovers first byte and payload of any frame below 2^64 bytes, and what follows it |
| `WsFrame.DecodeAllEncodeAll` | src/base/ws/WebsocketServer.hpp:239-326 | decoding a concatenation of frames gives back just these frames |
| `WsFrame.LengthBitClearIff` | src/base/ws/WebsocketServer.hpp:303-315 | the top bit of a 64-bit length is 0 if and only if the payload is below 2^63 bytes |
| `WsFrame.TopBitSet` | src/base/ws/WebsocketServer.hpp:303-315 | a payload for which it is not |
| `WsFrame.ReadLength` | src/base/ws/WebsocketServer.hpp:657-662 | the sum of shifted bytes is the big-endian number; neither it nor any partial sum exceeds what as many bytes hold, so eight bytes stay below 2^64 |
| `WsFrame.Unmask` | src/base/ws/WebsocketServer.hpp:745-749 | the loop yields every byte combined with its mask byte |
| `WsFrame.MaskedTwice` | src/base/ws/WebsocketServer.hpp:745-749 | unmasking undoes masking |
| `WsFrame.MaskedBits` | src/base/ws/WebsocketServer.hpp:746-749 | a bit of a masked byte is set just when the byte and byte `i % 4` of the mask differ in it |
| `SendQueue.StepKeepsInv` | src/base/ws/WebsocketServer.hpp:239-326 | every handler, post, completion, error and stop keeps the queue invariant |
| `SendQueue.RunKeepsInv` | src/base/ws/WebsocketServer.hpp:239-326 | the queue invariant holds in every reachable state |
| `SendRuns.AtMostOneWriter` | src/base/ws/WebsocketServer.hpp:239-280 | of pending starts, writes in flight and pending completions there is at most one, exactly one when the queue is non-empty and the runner is not stopped; a write in flight and a pending completion are those of the head; no handler reads the front of an empty queue |
| `SendRuns.SendsConserved` | src/base/ws/WebsocketServer.hpp:257-276 | posted sends are, in post order, those finished or discarded, those queued and those still in the strand; discards come directly after a failed write or after one another |
| `SendRuns.PostedAreSends` | src/base/ws/WebsocketServer.hpp:293-345 | in every run the posted sends are, with first byte, message and callback, those that callers asked for, a list read off the events alone: each `send`, and for each `sendClose` that found the flag clear a close frame with the status as two big-endian bytes and the reason |
| `SendRuns.WireIsSentFrames` | src/base/ws/WebsocketServer.hpp:239-326 | without a failed write the bytes on the socket are the encoding of the oldest frames that callers sent, one for each write that ended, in call order and unmixed, and decode to them |
| `SendRuns.CallbacksGetResults` | src/base/ws/WebsocketServer.hpp:251-276 | completion handlers have run, in order, with the results that the socket reported, for all writes but perhaps the last |
| `SendRuns.FailureTakesQueue` | src/base/ws/WebsocketServer.hpp:259-267 | a failed write runs the head's callback, discards all that is queued behind it and leaves the queue empty |
| `SendRuns.StoppedIff` | src/base/ws/WebsocketServer.hpp:252-255 | the runner is stopped just when some event stopped it |
| `SendRuns.EverySendFinishes` | src/base/ws/WebsocketServer.hpp:239-280 | from any reachable state without a stop finitely many handler runs and successful writes settle every posted send, and every one by a successful write if no failed completion was pending |
| `SendRuns.OneCloseFrameIff` | src/base/ws/WebsocketServer.hpp:328-345 | for every run of calls from any number of threads that have all ended: at most one close frame was posted if and only if no call tested the flag while another was between its test and its store, and then one was just when the connection is marked closed |
| `SendRuns.TwoCloseFrames` | src/base/ws/WebsocketServer.hpp:328-345 | a run in which two threads post two |
| `SendRuns.StoppedSettlesNothing` | src/base/ws/WebsocketServer.hpp:252-255 | once the runner is stopped no callback runs and nothing is discarded |
| `SendQueue.Connection.constructor` | src/base/ws/WebsocketServer.hpp:239-345 | a new connection is in the initial state |
| `SendQueue.Connection.Send` | src/base/ws/WebsocketServer.hpp:293-326 | takes the machine's send step, whose effect `SendRuns.PostedAreSends` fixes |
| `SendQueue.Connection.SendClose` | src/base/ws/WebsocketServer.hpp:328-345 | a call that no other overlaps takes the machine's test and set steps: nothing if already closed |
| `SendQueue.Connection.SetClosed` | src/base/ws/WebsocketServer.hpp:334-344 | the store and the post take the machine's set step |
| `SendQueue.Connection.RunNextHandler` | src/base/ws/WebsocketServer.hpp:239-280 | runs the next strand handler as the machine does: enqueue, start, or completion |
| `SendQueue.Connection.WriteFinished` | src/base/ws/WebsocketServer.hpp:251-276 | takes the machine's step for the end of a write |
| `FrameReader.NeedIsExactIff` | src/base/ws/WebsocketServer.hpp:712-724 | the read after the length asks for mask and payload exactly, for all admitted lengths, if and only if the limit leaves room for the mask |
| `FrameReader.NeedIsExact` | src/base/ws/WebsocketServer.hpp:722-724 | and for one length, if and only if mask and payload are below 2^64 bytes |
| `FrameReader.WrappedRead` | src/base/ws/WebsocketServer.hpp:712-724 | a run at the default limit in which the server reads 3 bytes for a body of 2^64 - 1 |
| `FrameReader.ReadsClientFrames` | src/base/ws/WebsocketServer.hpp:595-784 | at any limit, however the stream of a client's frames within it is cut, output i answers frame i: a message with that frame's first byte and payload, a pong with the first byte plus one, or a close whose status is the number of the first two bytes and whose reason is the rest; the buffer holds as many bytes as the handshake left, one read is outstanding and none after a close frame |
| `FrameReader.AnswerIsRight` | src/base/ws/WebsocketServer.hpp:746-778 | a handled frame is answered in that way |
| `FrameReader.OversizedRefused` | src/base/ws/WebsocketServer.hpp:712-719 | a client's frame beyond the limit is refused as too big, in each length form, and nothing more is read |
| `FrameReader.UnmaskedRefused` | src/base/ws/WebsocketServer.hpp:625-631 | a frame without the mask bit is refused as unmasked |
| `FrameReader.ReadErrorEnds` | src/base/ws/WebsocketServer.hpp:609-612 | a read error is reported once and ends the reading |
| `FrameReader.StoppedAnswersNothing` | src/base/ws/WebsocketServer.hpp:604-607 | after a stop nothing is answered |
| `FrameReader.AnsweredJustWhen` | src/base/ws/WebsocketServer.hpp:595-784 | when nothing can complete, a frame up to the first close frame has been answered just when the network delivered as many bytes as the stream up to its end has |
| `FrameReader.AllAnsweredIff` | src/base/ws/WebsocketServer.hpp:537-563 | all frames up to the first close frame are answered if and only if the handshake took no more bytes than follow that frame; if nothing follows, if and only if it took none |
| `FrameReader.LastFrameWaits` | src/base/ws/WebsocketServer.hpp:537-563 | a frame that came with the handshake is not answered while nothing else arrives |
| `FrameReader.NeverTwoReads` | src/base/ws/WebsocketServer.hpp:595-784 | for any limit and any bytes: reads never overlap, nothing is read or answered after a close, protocol error, oversized message, read error or wrapped read, and the buffer keeps its size |
| `FrameReader.ReadLoop.constructor` | src/base/ws/WebsocketServer.hpp:565-593 | after the handshake the first read is outstanding |
| `FrameReader.ReadLoop.ReadMessageContent` | src/base/ws/WebsocketServer.hpp:707-724 | takes the machine's step once the length is known |
| `FrameReader.ReadLoop.ReadCompleted` | src/base/ws/WebsocketServer.hpp:601-784 | handles a completed read as the machine does, by opcode and length form |
| `EventNotifier.FailureAdvances` | src/event/EventNotifier.cpp:174-205 | a failed try uses up the first entry of what remains of the plan, and the status is given up just when nothing remains |
| `EventNotifier.FailureDescends` | src/event/EventNotifier.cpp:187-202 | the pair of fallbacks left and retries left drops lexicographically |
| `EventNotifier.TriesFollowPlan` | src/event/EventNotifier.cpp:134-255 | in every run the targets tried for a status are a prefix of its plan: the target max(1, M) times, then each direct fallback in order max(0, M) + 1 times; a drop means that the whole plan was tried |
| `EventNotifier.SuccessDelivers` | src/event/EventNotifier.cpp:174-205 | in every run each success of a try in flight delivers one status and ends its tries: a delivered status succeeded in its last try only, and whatever is queued, in flight or dropped has only failed |
| `EventNotifier.CreatedIsAsked` | src/event/EventNotifier.cpp:218-223 | in every run what was created is one status for every target and every message |
| `EventNotifier.CycleStarts` | src/event/EventNotifier.cpp:148-172 | of the first statuses, as many as workers are allowed, a cycle puts those that may be tried in flight and the others behind the rest |
| `EventNotifier.EverythingStarts` | src/event/EventNotifier.cpp:143-217 | when everything queued may be tried, as many cycles as statuses put all of them in flight, in queue order |
| `EventNotifier.StatusesConserved` | src/event/EventNotifier.cpp:134-255 | every created status is in exactly one of queue, flight, delivered and dropped |
| `EventNotifier.TriesBounded` | src/event/EventNotifier.cpp:134-255 | the tries of a run never exceed the plans of what was added |
| `EventNotifier.RetriesSpaced` | src/event/EventNotifier.cpp:136-172 | with a monotone clock a cycle starts no retry before the interval has passed since that target's last failure, and starts at most the maximum number of workers |
| `EventNotifier.HeldBackIff` | src/event/EventNotifier.cpp:136-202 | a status that failed may be tried again if and only if its target's retries are used up or the retry interval has passed |
| `EventNotifier.FallbackNotSpaced` | src/event/EventNotifier.cpp:244-255 | a run in which a fallback goes out in the second in which the target failed |
| `EventNotifier.Notifier.constructor` | src/event/EventNotifier.cpp:134-255 | a new notifier is in the initial state |
| `EventNotifier.Notifier.MakeStatus` | src/event/EventNotifier.h:60-71 | the fallback queue holds the target's direct fallbacks in order |
| `EventNotifier.Notifier.AddMessage` | src/event/EventNotifier.cpp:218-223 | queues one status per target, as the machine does |
| `EventNotifier.Notifier.HandleMessageQueueOnce` | src/event/EventNotifier.cpp:148-217 | one cycle of the loop: at most the maximum number of statuses is taken, ready ones fly, others return to the end of the queue |
| `EventNotifier.Notifier.SenderFinished` | src/event/EventNotifier.cpp:174-205 | the end of a sender thread, by result, retries and fallbacks |
| `ChatRouting.SendSingle` | src/chat/ChatServer.cpp:411-429 | a payload for one user goes to that user alone, and for the bot to the listeners only |
| `ChatRoutes.SendRoutes` | src/chat/ChatServer.cpp:411-497 | a send adds one queued copy per occurrence of an offline user, addressed to that user alone, and one frame per occurrence to every connection of an online user, in recipient order; no queue of an online user and no other connection changes |
| `ChatRoutes.IncomingQueues` | src/chat/ChatServer.cpp:217-230 | a message that came in goes back to its sender unless that is off or it is for the bot: one queued copy if the sender is offline, before those for the recipients |
| `ChatRoutes.IncomingPosts` | src/chat/ChatServer.cpp:217-230 | and one frame to each of the sender's connections otherwise |
| `ChatLedger.SendMisses` | src/chat/ChatServer.cpp:411-445 | a send calls the listeners once and notes a miss for every occurrence of a recipient without a connection |
| `ChatLedger.ConnectedIsOnline` | src/chat/ChatServer.cpp:286-318 | in every run a user's connections are those that connected and neither went nor had a write break their pipe since |
| `ChatRouting.RedeliverExact` | src/chat/ChatServer.cpp:389-409 | redelivery to a connected user re-sends the queue in order over every connection, empties it, and leaves other queues, statistics and connections alone |
| `ChatRouting.RedeliverNeverEnds` | src/chat/ChatServer.cpp:401-406 | without a connection the queue is as long after any number of turns |
| `ChatRouting.RedeliverEnds` | src/chat/ChatServer.cpp:401-406 | with a connection the queue is empty after as many turns as it was long |
| `ChatRouting.RedeliverEndsIff` | src/chat/ChatServer.cpp:389-409 | the loop ends if and only if nothing is queued, the user is the bot, or the user has a connection |
| `ChatRouting.RedeliveryStuck` | src/chat/ChatServer.cpp:286-300 | a run in which a user with a queued message connects and is gone before the redelivery that this started: the queue is as long after any number of turns |
| `ChatRouting.RedeliverIsTurns` | src/chat/ChatServer.cpp:401-406 | a redelivery that nothing interrupts is as many turns as the queue was long |
| `ChatRouting.RunTurns` | src/chat/ChatServer.cpp:401-406 | turns at the end of a run are turns of the loop |
| `ChatRouting.StepAddressed` | src/chat/ChatServer.cpp:383-497 | every step keeps that a payload queued for a user has just that user as recipient |
| `ChatRouting.RunConservesFrames` | src/chat/ChatServer.cpp:431-485 | in every run each connection's posted frames are, in order, those delivered, re-queued or discarded, then those pending |
| `ChatRouting.NothingVanishes` | src/chat/ChatServer.cpp:411-497 | in every run with the undelivered queue on, every distinct message sent to a user, recipients apart, is queued, pending, delivered, or was discarded by a queue clear; copies of one message are not counted |
| `ChatLedger.IncomingIsKept` | src/chat/ChatServer.cpp:212-231 | in every run with the undelivered queue on, every message that came in is so kept for each of its recipients |
| `ChatRouting.StepDiscards` | src/base/ws/WebsocketServer.hpp:259-267 | a step adds a discarded frame to the log if and only if it is a failed write with chat frames queued behind it |
| `ChatRouting.DiscardedIff` | src/base/ws/WebsocketServer.hpp:259-267 | in every run frames are discarded if and only if some failed write, of a chat frame or of a control frame, found chat frames queued behind it |
| `ChatRouting.NothingLost` | src/chat/ChatServer.cpp:459-475 | in every run without such a write every message is queued, pending or delivered |
| `ChatRouting.SecondMessageLost` | src/base/ws/WebsocketServer.hpp:259-267 | for any two messages to one connection, a failed write loses the second |
| `ChatRouting.OneCallback` | src/chat/ChatServer.cpp:233-250 | one write callback: a status message causes nothing, any other message at most one status message, which is not counted |
| `ChatCascade.CascadeBounded` | src/chat/ChatServer.cpp:233-250 | over any run in which only writes end and connections go: pending and written non-status frames of a connection stay the same in number together, and a connection gets at most as many frames as there were pending non-status frames whose sender holds it |
| `ChatCascade.CascadeEnds` | src/chat/ChatServer.cpp:233-250 | so after any run there is a bound on the frames a connection will ever have been given, whichever way writes end and connections go from then on |
| `ChatCascade.SomeCovers` | src/chat/ChatServer.cpp:233-250 | only finitely many connections have frames pending |
| `ChatCascade.StepPosts` | src/chat/ChatServer.cpp:233-250 | such a step takes frames off the front of an outbox and adds at most one status message at the back, and gains no connection |
| `ChatCascade.WrittenQueues` | src/chat/ChatServer.cpp:246-249 | a sender without a connection has the status message queued |
| `ChatConnection.OutboxRefined` | src/base/ws/WebsocketServer.hpp:239-326 | every event of the send queue, which chat frames share with control frames, changes a connection's pending chat frames as an event of routing does; a failed write takes just the chat frames in the queue with it |
| `ChatConnection.RunRefinesOutbox` | src/base/ws/WebsocketServer.hpp:239-326 | over every run the pending chat frames are what these changes make of an empty outbox, and the frames that its failed writes drop are, in number, the chat frames that the send queue discarded |
| `ChatConnection.FailureAgrees` | src/base/ws/WebsocketServer.hpp:259-267 | routing's failed chat frame changes the outbox in that way |
| `ChatConnection.ClearAgrees` | src/base/ws/WebsocketServer.hpp:259-267 | so does routing's failed control frame |
| `ChatLedger.RunCharges` | src/chat/ChatServer.cpp:233-250 | in every run and for every user: sent are the deliveries and offline attempts of messages that the user sent, received the deliveries to the user, and bytes those of both, status messages apart |
| `ChatLedger.DeliveriesAreWrites` | src/chat/ChatServer.cpp:476-480 | in every run the deliveries are the frames at the head of an outbox for which a write succeeded, with their user and the bytes written |
| `ChatStatistics.RunBalanced` | src/chat/ChatServer.cpp:233-250 | summed over users in every run: received are the deliveries, sent are deliveries and offline attempts, bytes are twice the delivered and once the offline ones, status messages apart |
| `ChatStatistics.StepBalanced` | src/chat/Statistics.cpp:46-64 | every step keeps the sums balanced |
| `ChatServer.Server.constructor` | src/chat/ChatServer.cpp:15-50 | a new server is in the initial state |
| `ChatServer.Server.EnqueueUndeliveredMessage` | src/chat/ChatServer.cpp:383-388 | the loop pushes the payload once per recipient, as `PushAll` does |
| `ChatServer.PushAllExact` | src/chat/ChatServer.cpp:383-388 | every user's queue grows at its end by one copy per occurrence among the recipients |
| `ChatServer.Server.NoteUndeliverable` | src/chat/ChatServer.cpp:487-497 | with the undelivered queue on, queues a copy addressed to the one user |
| `ChatServer.Server.MessageSent` | src/chat/ChatServer.cpp:233-250 | counts for sender and recipients and sends a status message, as the machine does |
| `ChatServer.Server.SendMessageTo` | src/chat/ChatServer.cpp:431-485 | an offline user's copy is queued and counted, an online user's frame is posted to every connection |
| `ChatServer.Server.SendMessage` | src/chat/ChatServer.cpp:411-429 | the loop over recipients takes the machine's send |
| `ChatServer.Server.RedeliverMessagesTo` | src/chat/ChatServer.cpp:389-409 | whenever it ends, the pop-and-send loop returns the initial queue length and takes the machine's redelivery |
| `ChatServer.Server.RegisterConnection` | src/chat/ChatServer.cpp:286-289 | takes the machine's connect step |
| `ChatServer.Server.ConnectionGone` | src/chat/ChatServer.cpp:304-318 | takes the machine's disconnect step |
| `ChatServer.Server.RedeliverNext` | src/chat/ChatServer.cpp:401-406 | takes the machine's turn of redelivery |
| `ChatServer.Server.MessageReceived` | src/chat/ChatServer.cpp:217-231 | sends back to the sender unless excluded, then sends |
| `ChatServer.Server.WriteCallback` | src/chat/ChatServer.cpp:459-480 | a finished write is counted, a failed one removes a broken connection and queues the message again |
| `ChatServer.Server.FrameWritten` | src/chat/ChatServer.cpp:476-480 | the success branch takes the machine's step |
| `ChatServer.Server.FrameFailed` | src/chat/ChatServer.cpp:461-475 | the error branch takes the machine's step |
| `ChatServer.Server.ControlFailed` | src/base/ws/WebsocketServer.hpp:259-267 | a failed control frame discards the chat frames queued behind it and runs none of their callbacks |
| `ChatServer.PostToEach` | src/chat/ChatServer.cpp:447-482 | the handler posts the frame to each of the user's connections once |
| `FragmentBuffer.RunIsPending` | src/chat/ChatServer.cpp:320-347 | in every run a user's buffer is the text of the user's fragments since its last beginning or end, exists just for unfinished messages, and both size limits are the one last set |
| `FragmentBuffer.FinalFragmentJoins` | src/chat/ChatServer.cpp:186-208 | at a final fragment the pending fragments are joined and handed over just when they are within the limit; the buffer is gone either way |
| `FragmentBuffer.OthersDoNotMatter` | src/chat/ChatServer.cpp:169-210 | what happens to a user's frame depends on that user's fragments and the limit only |
| `FragmentBuffer.CutMessageArrives` | src/chat/ChatServer.cpp:169-210 | a message cut into any pieces, with any other frames between, is handed over whole just when it is within the limit |
| `FragmentBuffer.OutcomeByOpcode` | src/chat/ChatServer.cpp:175-215 | a whole message is handed over as it is and leaves all buffers alone; fragments are kept, pongs noted, all other opcodes refused |
| `FragmentBuffer.JoinsOwnIffAlone` | src/chat/ChatServer.cpp:320-347 | what is joined for a connection's message is what that connection sent if and only if no other connection of the user sent a fragment meanwhile |
| `FragmentBuffer.ConnectionsMix` | src/chat/ChatServer.cpp:175-187 | a run in which two connections of a user get each other's text |
| `FragmentBuffer.Reassembler.constructor` | src/chat/ChatServer.cpp:15-26 | both limits start at 10 MiB |
| `FragmentBuffer.Reassembler.WriteFrameBuffer` | src/chat/ChatServer.cpp:324-335 | appends to the user's buffer, or replaces it |
| `FragmentBuffer.Reassembler.ReadFrameBuffer` | src/chat/ChatServer.cpp:336-347 | returns the user's buffer, empty if there is none, and erases it if told so |
| `FragmentBuffer.Reassembler.OnMessage` | src/chat/ChatServer.cpp:169-210 | treats a frame as the machine does, for every opcode |
| `FragmentBuffer.Reassembler.SetMessageSizeLimit` | src/chat/ChatServer.cpp:510-513 | sets the limits for messages and for frames alike |
| `ConnectionStorage.Run` | src/chat/ConnectionStorage.cpp:69-152 | in every reachable state no stored pointer is null |
| `ConnectionStorage.VisitEntries` | src/chat/ConnectionStorage.cpp:31-52 | the loop handles just the entries that hold a connection and erases just the null ones |
| `ConnectionStorage.Storage.Verify` | src/chat/ConnectionStorage.cpp:29-55 | pings just the entries that hold a connection; without null entries it erases nothing |
| `ConnectionStorage.Storage.ForEach` | src/chat/ConnectionStorage.cpp:155-182 | handles just the user's entries that hold a connection and reports the null ones; without null entries it erases nothing |
| `ConnectionStorage.Storage.VisitMark` | src/chat/ConnectionStorage.cpp:133-149 | one turn of the sweep: what looking the entry up inserts is erased again |
| `ConnectionStorage.StorageValid` | src/chat/ConnectionStorage.cpp:69-104 | with each connection added once, every entry's keys are its connection's ids |
| `ConnectionStorage.EntriesAreLast` | src/chat/ConnectionStorage.cpp:69-104 | in every run an entry holds just what the last event about it left: the connection added, or nothing |
| `ConnectionStorage.RemoveIsExact` | src/chat/ConnectionStorage.cpp:88-104 | removing a registered connection takes out that entry and no other |
| `ConnectionStorage.TableIsLastMarks` | src/chat/ConnectionStorage.cpp:121-128 | in every run the wait table holds just the last mark of each id since the last sweep |
| `ConnectionStorage.SweepIsExact` | src/chat/ConnectionStorage.cpp:129-152 | a sweep counts just the ids whose last mark is "wait", closes just the registered ones among them, empties the table and leaves the entries alone |
| `ConnectionStorage.EarlyPongIsLost` | src/chat/ConnectionStorage.cpp:121-152 | a run in which a connection that answered is closed |
| `ConnectionStorage.Storage.constructor` | src/chat/ConnectionStorage.cpp:69-104 | a new storage is in the initial state |
| `ConnectionStorage.Storage.RemoveById` | src/chat/ConnectionStorage.cpp:79-87 | takes the machine's step: nothing if there is no such entry |
| `ConnectionStorage.Storage.NotePongWait` | src/chat/ConnectionStorage.cpp:121-124 | takes the machine's step |
| `ConnectionStorage.Storage.NotePongReceived` | src/chat/ConnectionStorage.cpp:125-128 | takes the machine's step, creating a mark for user 0 where there is none |
| `ConnectionStorage.Storage.AddConnection` | src/chat/ConnectionStorage.cpp:69-74 | takes the machine's step |
| `ConnectionStorage.Storage.RemoveRegistered` | src/chat/ConnectionStorage.cpp:88-104 | takes the machine's step |
| `ConnectionStorage.Storage.DisconnectWithoutPong` | src/chat/ConnectionStorage.cpp:129-152 | the loop that erases while it iterates, in any order, takes the machine's sweep and counts the unanswered ids |
| `ScopeRunner.StepKeepsInv` | src/helpers/utility.hpp:323-365 | every atomic operation of any thread keeps the count equal to the number of live locks, or -1 with none |
| `ScopeRunner.RunKeepsInv` | src/helpers/utility.hpp:323-365 | so does every run, and -1 stays -1 |
| `ScopeRunner.StoppedForGood` | src/helpers/utility.hpp:354-364 | once a call of stop has returned, no lock is live and none is ever granted again, further calls of stop included |
| `ScopeRunner.RefusedOnlyWhenStopped` | src/helpers/utility.hpp:343-352 | in every reachable state a thread was refused only if the runner is stopped |
| `ScopeRunner.LockGranted` | src/helpers/utility.hpp:343-352 | from every reachable state that is not stopped, a thread that asks and is left alone for one round that does not fail spuriously holds the lock, one that was trying after two; giving it back restores the state |
| `ScopeRunner.StopReturnsIff` | src/helpers/utility.hpp:354-364 | in every reachable state a call of stop returns in such a round if and only if no lock is live |
| `ScopeRunner.StepRefines` | src/helpers/utility.hpp:343-364 | every atomic operation is an acquire, a return or a close of a simple closable lock, or no step of it |
| `ChunkedBody.DecodesChunks` | src/base/http/HttpServer.h:549-661 | however the network cuts a stream shorter than the buffer and whatever a read takes, decoding never fails and holds the data of the chunks seen |
| `ChunkedBody.NeverFailsIff` | src/base/http/HttpServer.h:549-661 | a well-formed stream never fails, however it is cut and read, if and only if it is shorter than the buffer's limit |
| `ChunkedBody.MalformedSizeFails` | src/base/http/HttpServer.h:577-585 | a size line that does not start like a number is a protocol error |
| `ChunkedBody.ContentIsDataIff` | src/base/http/HttpServer.h:630-661 | in one run the final content is the concatenated data if and only if no byte past the message was read |
| `ChunkedBody.AlwaysDataIff` | src/base/http/HttpServer.h:549-661 | in all runs on a stream it is, if and only if nothing follows the message in the stream |
| `ChunkedBody.ExtraComesFirst` | src/base/http/HttpServer.h:549-661 | for every message and whatever follows it, a run that ends with that in front of the data |
| `ChunkedBody.ExactMessage` | src/base/http/HttpServer.h:549-661 | a message with nothing after it decodes to its data |
| `ChunkedBody.SurplusComesFirst` | src/base/http/HttpServer.h:549-661 | a run in which a byte past the message ends up in front of the content |
| `ChunkedBody.ReadsOn` | src/base/http/HttpServer.h:549-628 | with everything arrived, a read of all there is takes the next size line or the rest of a chunk |
| `ChunkedBody.BodyCompletes` | src/base/http/HttpServer.h:549-661 | then finitely many reads complete the body |
| `ChunkedBody.Session.constructor` | src/base/http/HttpServer.h:549-552 | a new session waits for a size line |
| `ChunkedBody.Session.ReadChunk` | src/base/http/HttpServer.h:630-661 | takes the machine's step for a complete chunk |
| `ChunkedBody.Session.ReadLine` | src/base/http/HttpServer.h:572-628 | takes the machine's step for a size line: malformed, too long, wait for data, or go on |
| `ChunkedBody.Session.ReadNumber` | src/base/http/HttpServer.h:575-625 | the part after the line is taken |
| `ChunkedBody.Session.ReadSized` | src/base/http/HttpServer.h:588-625 | the part after the length is known |
| `ChunkedBody.Session.ReadSome` | src/base/http/HttpServer.h:549-628 | takes the machine's step for a completed read |
| `Base64.EncodeBytes` | src/helpers/base64.cpp:22-61 | the loops over groups and the padding yield the encoding of RFC 4648, read as base-64 digits of 24-bit numbers |
| `Base64.AlphabetIs` | src/helpers/base64.cpp:13-16 | the symbols are the alphabet of RFC 4648, in order |
| `Base64.Examples` | src/helpers/base64.cpp:22-61 | test vectors from section 10 of RFC 4648 |
| `Base64.DecodeString` | src/helpers/base64.cpp:63-99 | the loops yield the bytes of the digits before the first other character, of the part of the string that the length converted to `int` lets them see; below 2^31 characters that is the whole string |
| `Base64.DecodeText` | src/helpers/base64.cpp:71-98 | the loops over what is seen |
| `Base64.CountsDown` | src/helpers/base64.cpp:71 | the length counted down does not pass the least `int` meanwhile |
| `Base64.DecodeEnds` | src/helpers/base64.cpp:71 | what comes after the first other character does not matter |
| `Base64.SplitBytes` | src/helpers/base64.cpp:32-35 | three bytes become the four digits of their number |
| `Base64.JoinDigits` | src/helpers/base64.cpp:78-80 | four digits become the three bytes of their number |
| `Base64.EncodedLength` | src/helpers/base64.cpp:22-61 | the encoding of n bytes has 4⌈n/3⌉ characters |
| `Base64.DecodeEncode` | src/helpers/base64.cpp:22-99 | decoding undoes encoding, for every byte sequence |
| `Base64.EncodeInjective` | src/helpers/base64.cpp:22-61 | different byte sequences have different encodings |
| `Base64.EncodeDecodeIff` | src/helpers/base64.cpp:22-99 | encoding undoes decoding if and only if the string is padded groups with zero fill bits |
| `Percent.PercentEncode` | src/helpers/utility.hpp:54-71 | the loop yields the code of every character in turn |
| `Percent.PercentDecode` | src/helpers/utility.hpp:74-92 | the loop takes two characters after a percent sign for a code when there are two, whatever they are |
| `Percent.GoesThroughIff` | src/helpers/utility.hpp:51-93 | a value comes back if and only if its percent signs stand at the end, or before one last character that needs no code; otherwise it loses percent signs |
| `Percent.EncodedHasNoCodedPercent` | src/helpers/utility.hpp:54-71 | the encoder's output holds no code of a percent sign, not even across codes |
| `Percent.CodedAre` | src/helpers/utility.hpp:60-67 | coded are just the reserved characters of RFC 3986 and the digits |
| `Percent.EncodedHasNoReserved` | src/helpers/utility.hpp:54-71 | the output holds no reserved character but plus |
| `Percent.CodeStandsFor` | src/helpers/utility.hpp:78-89 | a code with digits of either case stands for the byte with that number, a plus for a space |
| `Percent.Example` | src/helpers/utility.hpp:54-71 | a coded value |
| `Percent.PercentSignLost` | src/helpers/utility.hpp:62-67 | a value that does not come back |
| `QueryString.CreateString` | src/helpers/utility.hpp:99-109 | the loop joins the pieces with ampersands |
| `QueryString.ParseString` | src/helpers/utility.hpp:112-147 | on any string every position is in range, and the scan splits at ampersands, each piece at its last equals sign, skipping pieces without a name |
| `QueryString.SplitJoin` | src/helpers/utility.hpp:99-147 | splitting undoes joining of pieces without ampersands |
| `QueryString.ParseCreate` | src/helpers/utility.hpp:99-147 | with names that are not empty and free of ampersands every field comes back in its place, its value coded and decoded |
| `QueryString.ParsedNamesAreGood` | src/helpers/utility.hpp:112-147 | parsing any string yields only such names |
| `QueryString.OddPieces` | src/helpers/utility.hpp:112-147 | a piece without an equals sign is a name with an empty value, one without a name is skipped |
| `QueryString.Example` | src/helpers/utility.hpp:99-109 | a created string |
| `QueryString.RoundTripIff` | src/helpers/utility.hpp:99-147 | parsing a created string gives the same multimap if and only if all names are such and all values come back from percent coding |
| `Unid.CountIs` | src/base/unid.cpp:48-67 | after n calls the counter is 1 + n mod (2^32 - 2): never 0, no overflow |
| `Unid.CountsEqualIff` | src/base/unid.cpp:48-67 | two calls return the same counter if and only if a multiple of 2^32 - 2 calls lies between them |
| `Unid.DistinctIffNoOverlap` | src/base/unid.cpp:48-71 | up to 2^32 - 2 finished calls of any threads return distinct counters if and only if no call stored while another was under way |
| `Unid.OverlapRepeats` | src/base/unid.cpp:50-64 | two overlapping calls return the same counter |
| `Unid.StrInjective` | src/base/unid.h:28-35 | different ids print differently |
| `Unid.FormatReads` | src/base/unid.h:33-35 | a printed number reads back as itself and has the fixed width if it fits |
| `Unid.StrLayout` | src/base/unid.h:33-35 | a printed id has 31 characters, dashes at three places and the four numbers between them |
| `Unid.IdHolds` | src/base/unid.cpp:48-71 | every id has the time of its call, the process id and the random bytes that were drawn last |
| `Unid.SharedIff` | src/base/unid.cpp:52-55 | two ids always share their random bytes if and only if no call between them drew new ones: every 1000 counts and at the top |
| `Unid.PrintedIdsDiffer` | src/base/unid.cpp:48-71 | whatever times and random bytes are, calls less than 2^32 - 2 apart print different ids |
| `Unid.Generator.constructor` | src/base/unid.cpp:17-21 | the counter starts at 1 and the process id is cut to 16 bits |
| `Unid.Generator.NextId` | src/base/unid.cpp:48-71 | takes the machine's step: renews the random bytes every 1000 counts and at the top, wraps to 1 |

## Left out

- Sockets, TLS, timers, accept loops, thread pools: only their completion events appear.
- JSON text, authentication, REST endpoints, settings, logging, dates: payloads are records, the size of a payload's
  JSON is a parameter, ignored types and the send-back setting are parameters of an event.
- The cache of a payload's JSON, the content-length path of HTTP requests, and the other getters and setters: they
  would only add easy members.
- Weak memory: atomic operations, strand handlers and bodies under a mutex are atomic steps. So are the handling of one
  incoming message and one turn of redelivery, although `send` and `sendTo` hold no lock between the test for a
  connection and the enqueueing, and redelivery works on its queue without the lock.
- Two-level maps of connections: the model keeps one table of entries and the set of users that have an inner map;
  removing all connections of a user at once is not modelled.
- Connection ids are taken to be distinct for live connections; the code builds them from address digits and port.
- Nested fallbacks, a second error listener, a change of the retry settings during a run, and targets dropped for a
  repeated type are not modelled; the queue is exact and has one consumer, and targets have a fixed order.
- Uninitialised and out-of-range reads: the random bytes of an id are a parameter, although the code may take one past
  the end of the UUID; an empty size line and a chunk length near 2^64 count as failures.
- Counters of statistics are unbounded.
- FrameReader.ReadsClientFrames: a read that completes with no bytes and is repeated is not modelled; what the server
  does with a body within 4 bytes of 2^64 is one terminal answer.
- ConnectionStorage.VisitEntries: goes over a fixed set of keys; to erase from the map while iterating over it is
  undefined in the code, and no run comes to it.
- SendRuns.OneCloseFrameIff: the store of the closed flag and the post of the close frame are one step.
- ChatRouting.NothingLost: about messages, not frames, and in one direction; a discarded frame may also have reached the
  user over another connection. For frames `ChatRouting.DiscardedIff` is exact.
- ChatServer.Server.RedeliverMessagesTo: asks for the condition under which the loop ends
  (`ChatRouting.RedeliverEndsIff`).
- Base64.DecodeString: asks that a length which converts to a negative `int` does not overflow before the digits end;
  characters and their digits are kept in two arrays where the code overwrites one.
- QueryString.RoundTripIff: the order in which a multimap is iterated is that of the given sequence.
- ScopeRunner.StepKeepsInv: the count is unbounded.
