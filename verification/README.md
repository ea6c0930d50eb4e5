# Verification of the talking-doll server and client

This Dafny project models the parts of the repository that carry messages and bytes from one
place to another, and proves what they keep, deliver, lose and undo. `dafny verify
dfyconfig.toml` checks all of it. Statements about runs quantify over every finite sequence of
enabled steps, so they cover every interleaving of the goroutines or threads involved.

| files | what they model |
|---|---|
| `BrokerModel`, `BrokerInvariant`, `BrokerTopics`, `BrokerDelivery`, `BrokerRuns`, `BrokerLoss`, `Broker` | the Go message broker: publishers with their lock phases, the polling goroutine, its forwarders, the listener, `Close` |
| `RoutingModel`, `RoutingInvariant`, `Routing`, `RoutingRuns`, `WebsocketHub` | the broker inside the server: hub, admission, clients, transcription listener, chat loops |
| `RingBuffer`, `RingProtocol` | the C audio ring buffer, as an array refining a FIFO and as two threads with condition variables |
| `QueueModel`, `QueueInvariant`, `QueueSafety`, `MessageQueue`, `QueueRuns` | the C message queue with its owned heap buffers and the websocket callback that empties it |
| `Base64` | both encoders and the decoder, against RFC 4648 |
| `ChunkedCoding`, `StreamingSession` | the chunked-coding writer, a decoder written from section 7.1 of RFC 9112, and the session object |
| `RiffPlayback`, `Recorder` | the scan for the `data` chunk, block-wise playback, the capture callback |
| `UploadPipeline`, `AudioUpload` | the request body on its way to the recogniser |
| `ChatHistory` | loading, running and saving chat sessions |
| `Sequences` | bytes and joining sequences |

## How the models read

A step of a concurrent model is a stretch that nothing else can split: a critical section, one
channel operation, one hand-over. Publishing to a missing key is four steps (look up, store,
take the read lock again, send), because the code gives the lock up between them. Discovering a
key is one step per key, which allows more interleavings than the code's single locked walk.
Choices that depend on time (polling, deadlines, durations) are left to the run.

The classes (`ChannelMessageBroker`, `AudioRingBuffer`, `Queue`, `Client`, `Hub`, `Session`,
`Recorder`, `Upload`, `GeminiChatSession`) have the source's fields and update them in place. Each
method's contract says which step of the model, or which specification function, it performs.
Fields such as `accepted`, `put`, `spoken`, `captured` or `attempts` are logs of what happened; the
program has no such variables. What the logs hold is proved to be what the steps of the run say
(`ConversationExactly`, `FifoOfPayloads`).

Run conditions of the broker: one wildcard subscription whose context is never cancelled
(agentic/adapters/websocket/server.go:58), and nobody else receiving from topic channels. That
each key has one creator is *not* assumed: `GuardedRun` names the missing check and
`DistinctIsGuarded` derives it from session ids that are published once.

## What the proofs found

- A message whose Publish returned nil can never be received if and only if some step of the run
  stranded its channel (`LostExactly`), and there are three such steps (`StrandingSteps`): the
  channel is made under a key the polling goroutine already has in its own map (or under one
  that is not its subscriber's), another channel is stored over it before it is discovered, or
  the first `Close` finds it undiscovered. With session ids published once and no `Close`, no
  message of the subscriber's topic is lost (`FreshSessionsAreNeverLost`). Of two
  first publishers on one key, either can lose its message (`RacingCreatorsLoseAMessage`,
  `LateCreatorLosesItsMessage`); a publisher can lose one without replacing anything, because a
  key stays in the goroutine's map after `Close` (`CreatorAfterCloseLosesItsMessage`); and
  `Close` alone can (`EarlyCloseLosesAMessage`).
- With session ids published once a send never finds its channel full: it succeeds, unless `Close`
  got in between, and then it panics (`FreshPublishesSucceed`).
- `Close` between a creator's unlock and re-lock can make its send panic (`ClosedCreatorPanics`).
  Only a creator's send can panic (`FoundNeverPanics`), and it does exactly when a first `Close`
  met its channel in the map (`PanicsInAnyRun`).
- Two different topics can share a key exactly when one extends the other past a colon
  (`CollisionsExactly`); the comment on `makeKey` calls keys unique.
- Two connections of one device can both be admitted (`TwoOpenClients`). Never happening is
  equivalent to each insertion finding the device free (`UniqueExactly`).
- A read that returns bytes together with end of file has its bytes dropped, so a short upload
  may send nothing (`ShortBodyIsDropped`, `WholeBodyExactly`).
- A chunk whose call fails after its first send leaves the session open. If the next chunk with
  its size line is as long as the missing data, it is read as that data
  (`FailedSendMisleadsServer`). A failure after the second send breaks the body for good
  (`SecondSendFailureIsFatal`, when the calls before it all failed at their first send or
  succeeded). No simpler rule covers every failure: two of them can cancel out
  (`FailuresCanCancelOut`).
- The callback's second probe does not look at the slot's binary flag. Frames come out first in,
  first out and with the type the flag says exactly in the runs whose text probes meet no flagged
  slot (`FaithfulExactly`). For runs that end outside the callback, these are the runs in which
  the first addition, if any, between the two probes of a callback that found the queue empty is
  a text in a slot never used for binary (`UntornExactly`). The bytes come out right, whatever the
  callback's buffer held, exactly when the text probes meet readable slots (`FifoExactly`).
- However torn, no buffer is freed twice or used after it was freed (`NeverFreedTwice`). One is
  leaked exactly when adding a binary message overwrites the pointer of a slot that still owns it
  (`CleanupExactly`).
- In guarded runs a text message in a slot that once held a binary one goes out as a binary frame
  (`FrameTypeExactly`).
- The RIFF scan never ends if and only if it reaches a header, not `data`, whose size field is
  0xFFFFFFF8 (`TerminatesExactly`). It does not skip pad bytes: an odd chunk right before the data
  makes it miss the payload if the chunks before that one are even (`OddPadMisleads`,
  `PaddingExactly`). With an odd chunk further in front parity decides nothing: the scan reads the
  next header shifted by one (`MisreadHeader`), which can lead it to the data by chance
  (`MisreadCanResync`, `ParityIsNotEnough`). Where it finds the payload it plays everything after the
  data header, whatever that header's size says, and the header itself if nothing follows it
  (`ScanMissesEmpty`).
- The base64 decoder decodes exactly the texts whose computed size reaches into their last group;
  of the others it refuses `==`, and on the rest it reads or writes out of bounds
  (`DecodeAudio`). Every encoding of non-empty data is of the first kind (`SizeOfEncoding`).
- A ring whose largest write and read together exceed its size plus one can put both threads to
  sleep (`DeadlockExactly`); the program's constants keep clear of that.
- With capture blocks of different sizes the recording can have holes (`PrefixExactly`); the
  device delivers one size.

## Model

| member | source | states |
|---|---|---|
| BrokerTopics.KeysAreInjective | agentic/adapters/message_broker/channel.go:29-32 | keys of colon-free topics determine topic and routing key |
| BrokerTopics.KeysCollide | agentic/adapters/message_broker/channel.go:29-32 | an instance: topics "a" and "a:b" |
| BrokerTopics.CollisionsExactly | agentic/adapters/message_broker/channel.go:29-32 | two topics have a key in common if and only if they are equal or one extends the other past a colon |
| BrokerTopics.MatchesExactly | agentic/adapters/message_broker/channel.go:104-106 | which keys a wildcard subscription matches: its own topic's, and those of topics extending it past a colon |
| BrokerTopics.EntryWasAccepted | agentic/adapters/message_broker/channel.go:104-117 | everything past the wildcard channel was accepted, on the channel and under the key it came from |
| BrokerTopics.WildcardIsolation | agentic/adapters/message_broker/channel.go:85-129 | in every run the subscriber of a colon-free topic receives no message of another colon-free topic |
| BrokerInvariant.StepKeeps | agentic/adapters/message_broker/channel.go:34-166 | every step of every goroutine keeps conservation, the log of accepted messages, the map and the channel states |
| BrokerInvariant.Reached | agentic/adapters/message_broker/channel.go:34-166 | the invariant holds in every state of every run |
| BrokerDelivery.ChannelConservation | agentic/adapters/message_broker/channel.go:86-125 | accepted = received ++ in the wildcard channel ++ in the forwarder's hand ++ buffered, per channel, in order |
| BrokerDelivery.AcceptedMeansReturnedNil | agentic/adapters/message_broker/channel.go:55-74 | a message is in an accepted log if and only if its Publish returned nil, at one place only |
| BrokerDelivery.UnreceivedBound | agentic/adapters/message_broker/channel.go:49-131 | with n channels at most 101 n + 100 accepted messages are unreceived |
| BrokerDelivery.RefusedExactly | agentic/adapters/message_broker/channel.go:62-73 | in every run a send finds an open channel full if and only if it holds 100 messages, and a forwarder has to wait if and only if the wildcard channel does |
| BrokerDelivery.InternalStepDecreases | agentic/adapters/message_broker/channel.go:97-124 | discovering, taking, putting, exiting and receiving all decrease one natural number |
| BrokerDelivery.Drain | agentic/adapters/message_broker/channel.go:97-124 | from every reachable state such steps lead to a state where none is left |
| BrokerDelivery.QuiescentExactly | agentic/adapters/message_broker/channel.go:97-124 | there, a channel's accepted messages have all been received, or none of them if it is stranded, also after Close |
| BrokerDelivery.StrandingSteps | agentic/adapters/message_broker/channel.go:45-53 | a channel becomes stranded by exactly three steps: its own making under a known or foreign key, a store over it, or a first Close, both before discovery |
| BrokerDelivery.StrandedForever | agentic/adapters/message_broker/channel.go:102-118 | nothing is ever received from a stranded channel |
| BrokerRuns.GuardedKeepsListed | agentic/adapters/message_broker/channel.go:45-53 | while no store replaces a channel, being open and being in the map are the same |
| BrokerRuns.PanicsExactly | agentic/adapters/message_broker/channel.go:62-73 | in such runs a send panics if and only if the map no longer holds the channel |
| BrokerRuns.PanicsInAnyRun | agentic/adapters/message_broker/channel.go:144-166 | in every run a send panics if and only if a first Close met its channel in the map |
| BrokerRuns.FoundNeverPanics | agentic/adapters/message_broker/channel.go:43-64 | in every run a Publish that found its channel never sends on a closed one |
| BrokerRuns.Lifecycle | agentic/adapters/message_broker/channel.go:144-166 | mapped channels are open, closed is never reset, a channel closes only by the first Close and never twice |
| BrokerRuns.DistinctIsGuarded | agentic/adapters/http/handler.go:184-189 | if no two publications share a key, no store replaces a channel |
| BrokerRuns.FreshPublishesSucceed | agentic/adapters/message_broker/channel.go:49-73 | in every run with distinct keys a send is accepted as the first and only message of its channel, unless a first Close met the channel, when it panics |
| BrokerRuns.KeyConservation | agentic/adapters/message_broker/channel.go:86-125 | conservation per key, one channel per key, in guarded runs without Close |
| BrokerRuns.FreshSessionsAreDelivered | agentic/adapters/http/handler.go:270-296 | a transcription published under a fresh session id is received once the broker is quiet |
| BrokerLoss.StrandedExactly | agentic/adapters/message_broker/channel.go:97-124 | at the end of a run the stranded channels are those some step of it stranded |
| BrokerLoss.LostExactly | agentic/adapters/message_broker/channel.go:34-166 | a message whose Publish returned nil is received in no continuation if and only if some step of the run stranded its channel |
| BrokerLoss.FreshSessionsAreNeverLost | agentic/adapters/http/handler.go:270-296 | with distinct keys, only publishers and no Close, an accepted message can never be received if and only if its key is not the subscriber's |
| BrokerLoss.RacingCreatorsLoseAMessage | agentic/adapters/message_broker/channel.go:45-53 | a run in which the second creator's store loses the first one's message |
| BrokerLoss.LateCreatorLosesItsMessage | agentic/adapters/message_broker/channel.go:104-106 | the same with the first channel discovered: the second message is lost |
| BrokerLoss.CreatorAfterCloseLosesItsMessage | agentic/adapters/message_broker/channel.go:104-106 | a guarded run in which the goroutine's key outlives Close and a late creator's message is lost |
| BrokerLoss.EarlyCloseLosesAMessage | agentic/adapters/message_broker/channel.go:155-162 | a run in which Close loses an undiscovered message |
| BrokerRuns.ClosedCreatorPanics | agentic/adapters/message_broker/channel.go:45-63 | a run in which Publish sends on a closed channel |
| Broker.ChannelMessageBroker.Publish | agentic/adapters/message_broker/channel.go:34-74 | an undisturbed call performs its run of steps and never panics; it is refused exactly when closed, accepted exactly with a live context, an open broker and fewer than 100 messages under its key, and then its message is behind the others of that channel |
| Broker.ChannelMessageBroker.Lookup | agentic/adapters/message_broker/channel.go:36-45 | the first lock phase is the begin step: refused when closed, the mapped channel, or none yet |
| Broker.ChannelMessageBroker.Provide | agentic/adapters/message_broker/channel.go:45-53 | the two lock phases for a missing key end with the read lock held and an open channel |
| Broker.ChannelMessageBroker.Send | agentic/adapters/message_broker/channel.go:55-74 | the three-way select is the send or cancel step: which of its outcomes, told by the context, the channel and the number 100, and what the channel holds then |
| Broker.ChannelMessageBroker.Complete | agentic/adapters/message_broker/channel.go:45-74 | a call that has looked its key up stores a channel if it must, sends or gives up, as Publish says, and leaves no reader |
| Broker.ChannelMessageBroker.SubscribeSpecific | agentic/adapters/message_broker/channel.go:131-141 | with a routing key, returns the channel the map holds for the key, made if missing |
| Broker.ChannelMessageBroker.Close | agentic/adapters/message_broker/channel.go:144-166 | the loop over the map closes exactly the mapped channels, once, in whatever order, and empties the map |
| Broker.ChannelMessageBroker.Poll | agentic/adapters/message_broker/channel.go:102-119 | one pass of the polling loop is a run of discoveries after which nothing is left to discover |
| Broker.ChannelMessageBroker.ForwarderTakes | agentic/adapters/message_broker/channel.go:108-117 | the range loop's receive is the take step |
| Broker.ChannelMessageBroker.ForwarderPuts | agentic/adapters/message_broker/channel.go:110-114 | its send is the put step, with fewer than 100 messages in the wildcard channel |
| Broker.ChannelMessageBroker.ForwarderExits | agentic/adapters/message_broker/channel.go:109-117 | the range loop ends on a closed and empty channel |
| Broker.ChannelMessageBroker.Next | agentic/adapters/websocket/server.go:71-72 | the listener receives the oldest message of the wildcard channel |
| RoutingInvariant.StepKeeps | agentic/adapters/websocket/server.go:69-109 | every step of the whole pipeline keeps routing, reply order, close-once and hub stages |
| Routing.HeardOnce | agentic/adapters/websocket/server.go:71-79 | the listener never hears one publication twice |
| Routing.RoutedAtMostOnce | agentic/adapters/websocket/server.go:81-99 | a transcription is put on at most one client's input channel, at most once |
| Routing.RoutedToItsDevice | agentic/adapters/websocket/server.go:81-99 | what was put came from a Publish that returned nil and names that client's device and that text |
| Routing.RepliesInOrder | agentic/usecase/chat_service.go:42-53 | emitted replies are, in order, one per consumed input, its answer's text or "ERROR: " and the error, at most one owed |
| Routing.RepliesAreSpoken | agentic/adapters/websocket/client.go:214-218 | what was taken from the output channel and what waits there are, one greeting left out, the emitted replies in order; at most ten lines wait |
| RoutingRuns.ConversationExactly | agentic/usecase/chat_service.go:42-53 | read off the steps of any run: the inputs put, taken and answered, and the replies on the output channel or past it, in order, one for each emit |
| RoutingRuns.ChatMovesExactly | agentic/adapters/websocket/client.go:113-114 | in every run, when each goroutine of a client can move, with channels of ten |
| RoutingRuns.TenFit | agentic/adapters/websocket/client.go:263-273 | a run in which up to ten given texts wait in order; an eleventh finds no room |
| RoutingRuns.AdmittedExactly | agentic/adapters/websocket/handler.go:79-95 | a connection is turned away if and only if its device has an open client in the map |
| RoutingRuns.LooksUpExactly | agentic/adapters/websocket/server.go:71-88 | in every run a message heard is dropped if and only if it does not decode, ignored if and only if its device has no open client in the map, and otherwise goes to such a client |
| RoutingRuns.HandsOverExactly | agentic/adapters/websocket/server.go:90-98 | its text is put there if fewer than ten inputs wait, and can be refused only by a full channel or a closed client |
| RoutingRuns.HubMovesExactly | agentic/adapters/websocket/hub.go:29-44 | in every run the hub goroutine can finish what it was handed, and idle it takes checked clients and closed mapped ones |
| RoutingRuns.BrokerInside | agentic/adapters/message_broker/channel.go:34-166 | what the broker does in a run of the server is a run of the broker model |
| RoutingRuns.SpokenInTheEnd | agentic/adapters/websocket/server.go:57-109 | for all strings a run from Publish to the answer being spoken |
| Routing.ClosedOnce | agentic/adapters/websocket/client.go:172-193 | cancel, connection close and channel close happen once each, exactly when closed is set |
| Routing.ClosesExactly | agentic/adapters/websocket/client.go:172-193 | closed becomes true by a Close of that client and by no other step |
| Routing.StageExactly | agentic/adapters/websocket/hub.go:29-44 | which of the hub's and the handler's steps moves a client, and to which stage |
| Routing.StageStep | agentic/adapters/websocket/handler.go:94-107 | a client goes from checked to handed, inside, leaving and gone one stage at a time |
| Routing.NeverReturns | agentic/adapters/websocket/hub.go:29-44 | over every run stages never go back and closed stays set |
| Routing.UniqueExactly | agentic/adapters/websocket/handler.go:79-95 | at most one open client per device in every state of a run if and only if each insertion finds its device free |
| Routing.SerialisedIsUnique | agentic/adapters/websocket/hub.go:75-83 | with admission serialised per device, a lookup has one answer for every map order |
| Routing.TwoOpenClients | agentic/adapters/websocket/handler.go:79-95 | a run with two open clients of one device |
| WebsocketHub.Client.Close | agentic/adapters/websocket/client.go:172-193 | the whole effect of Close, none when already closed |
| WebsocketHub.Client.SendInput | agentic/adapters/websocket/client.go:263-273 | appends to the input channel if fewer than ten wait, or refuses when it is full or the context is seen done |
| WebsocketHub.Client.AnswerNext | agentic/usecase/chat_service.go:44-52 | takes the oldest input and owes its reply or error text |
| WebsocketHub.Client.EmitReply | agentic/usecase/chat_service.go:49-53 | puts the owed reply behind the others on the output channel |
| WebsocketHub.Client.Greet | agentic/adapters/websocket/client.go:133-136 | the greeting goes onto the output channel, once |
| WebsocketHub.Client.Speak | agentic/adapters/websocket/client.go:214-218 | the response handler takes the oldest line of the output channel |
| WebsocketHub.Hub.Insert | agentic/adapters/websocket/hub.go:32-34 | the register branch |
| WebsocketHub.Hub.Remove | agentic/adapters/websocket/hub.go:36-41 | a mapped client is taken out and closed, others are left alone |
| WebsocketHub.Hub.GetClientByDevice | agentic/adapters/websocket/hub.go:75-83 | finds an open client of the device if there is one, in any map order |
| WebsocketHub.Hub.IsDeviceConnected | agentic/adapters/websocket/hub.go:85-88 | true if and only if there is one |
| WebsocketHub.Hub.HandOver | agentic/adapters/websocket/server.go:71-99 | one undisturbed listener round puts the text behind the inputs of one client, an open one of that device with fewer than ten; if of none, there was no such client or a full one |
| RingBuffer.WriteAppends | doll-replica-c/audio.c:466-477 | a write appends its bytes to the contents wherever its two pieces land, and keeps the position law |
| RingBuffer.ReadTakesOldest | doll-replica-c/audio.c:501-512 | a read delivers the oldest bytes and leaves the rest |
| RingBuffer.AudioRingBuffer.constructor | doll-replica-c/audio.c:421-448 | a new ring is empty and active |
| RingBuffer.AudioRingBuffer.Write | doll-replica-c/audio.c:461-482 | contents grow by the data, or nothing changes once inactive |
| RingBuffer.AudioRingBuffer.Read | doll-replica-c/audio.c:496-517 | the caller's array gets the oldest bytes, or nothing changes once inactive |
| RingBuffer.AudioRingBuffer.Deactivate | doll-replica-c/audio.c:524-528 | the cleanup's locked part clears active and moves no byte |
| RingProtocol.ReadsArePrefixOfWrites | doll-replica-c/audio.c:450-518 | over every run, read ++ contents = written |
| RingProtocol.WritesExactly | doll-replica-c/audio.c:456-482 | in every run, what a write call does when entered or woken: return on a stopped ring, sleep if its bytes do not fit, or append them and signal the reader |
| RingProtocol.ReadsExactly | doll-replica-c/audio.c:491-517 | the same of a read call: return, sleep while too little is there, or take the oldest bytes and signal the writer |
| RingProtocol.StopEndsWaiting | doll-replica-c/audio.c:521-528 | after a run with a stop in it nobody is asleep, and every call entered or woken returns without moving a byte |
| RingProtocol.NoLostWakeup | doll-replica-c/audio.c:456-459 | a thread asleep without a signal cannot proceed, and the ring is still active |
| RingProtocol.DeadlockExactly | doll-replica-c/audio.c:450-518 | with writes up to w and reads up to r both threads can sleep at once if and only if w + r > size + 1 |
| RingProtocol.NeverBothAsleep | doll-replica-c/audio.c:450-518 | within that bound no run has both asleep |
| RingProtocol.SleeperIsWoken | doll-replica-c/audio.c:479-515 | within the bound the other thread's next call goes through at once and wakes the sleeper |
| RingProtocol.ProgramNeverDeadlocks | doll-replica-c/audio.c:634-635 | 1 MiB, 65536-byte frames and 512-byte reads are within the bound |
| Base64.TableText | doll-replica-c/audio.c:34-35 | the closed form of the table is the program's string |
| Base64.DigitsExactly | doll-replica-c/audio.c:388-391 | the p-th character of that string is read as p, every other character as whatever the null pointer gives |
| Base64.GroupSpellsBits | doll-replica-c/utils.c:16-19 | read as one 24-bit number, a group's four values are its three bytes |
| Base64.GroupReadsBits | doll-replica-c/audio.c:393-395 | the three bytes decoded from four characters of the table are that number of their values |
| Base64.EncodeInto | doll-replica-c/utils.c:7-22 | the loop of both encoders writes the encoding and its terminator, in bounds |
| Base64.EncodeAudio | doll-replica-c/audio.c:264-288 | the allocated text is exactly the encoding and its terminator |
| Base64.DecodeLoop | doll-replica-c/audio.c:386-396 | the decoder's loop fills the output with the groups' bytes, cut at its size, and stays in bounds if and only if the size reaches into the last group |
| Base64.DecodeAudio | doll-replica-c/audio.c:369-399 | on every text within C `int`: decoded if and only if its size, three quarters of the length less the padding, reaches its last group; refused if and only if it is `==`; otherwise out of bounds |
| Base64.SizeOfEncoding | doll-replica-c/audio.c:374-377 | the size computed from an encoding of non-empty data is the original length, within C `int` |
| Base64.RoundTrip | doll-replica-c/audio.c:369-399 | decoding an encoding of non-empty data gives it back, within C `int`, whatever the decoder computes for padding characters |
| Base64.EncodingsExactly | doll-replica-c/audio.c:264-288 | the encoder's texts for non-empty data are exactly the canonical ones of RFC 4648 |
| ChunkedCoding.RoundTrip | doll-replica-c/http_client.c:241-275 | the decoder returns the chunks joined and stops exactly at the end of the body, whatever follows |
| ChunkedCoding.UnfinishedIsIncomplete | doll-replica-c/http_client.c:241-275 | before the end marker no prefix of the wire is a complete or a broken body |
| ChunkedCoding.AnswerStays | doll-replica-c/http_client.c:241-264 | the decoder's answer about an input stands when more bytes follow |
| ChunkedCoding.HexExactly | doll-replica-c/http_client.c:247-248 | the size line spells the size in lower-case digits without a leading zero |
| ChunkedCoding.HeaderFits | doll-replica-c/http_client.c:247-248 | the size line of any 64-bit size fits its 32-byte buffer |
| StreamingSession.InSyncExactly | doll-replica-c/http_client.c:241-264 | the wire holds exactly the accepted chunks if and only if every failed call failed at its first send |
| StreamingSession.SessionDelivers | doll-replica-c/http_client.c:241-275 | such a session decodes to its accepted chunks, and to nothing before its end marker |
| StreamingSession.FailedSendMisleadsServer | doll-replica-c/http_client.c:250-256 | for all chunks: if the next chunk and its size line are as long as the data that failed after its size line, the server decodes a body nobody sent |
| StreamingSession.MissingCrlfIsBad | doll-replica-c/http_client.c:254-260 | after complete chunks, data whose CRLF did not go out makes the body broken unless a carriage return comes next |
| StreamingSession.SecondSendFailureIsFatal | doll-replica-c/http_client.c:254-260 | after calls that left nothing or a whole chunk, a failure after the second send makes the finished body broken, whatever is attempted later |
| StreamingSession.FailuresCanCancelOut | doll-replica-c/http_client.c:246-260 | two failed calls and one that succeeds after which the server decodes exactly the accepted chunk |
| StreamingSession.Session.Start | doll-replica-c/http_client.c:184-239 | how far set-up got decides what the session state becomes |
| StreamingSession.Session.StreamChunk | doll-replica-c/http_client.c:241-264 | what reaches the wire when any of the three sends fails |
| StreamingSession.ResidueExactly | doll-replica-c/http_client.c:246-260 | size line, data and CRLF: the bytes that none, one, two or three successful sends leave |
| StreamingSession.Session.Finish | doll-replica-c/http_client.c:265-291 | true for every open session, which puts the five bytes of the end marker on the wire if they can be sent, and what a server can then decode |
| MessageQueue.FifoOfPayloads | doll-replica-c/message_queue.c:35-139 | in guarded runs delivered payloads ++ waiting ones, read from head to tail, are the arguments of the additions that found fewer than nine waiting (and memory), texts cut to 65535 bytes |
| MessageQueue.AcceptedIsGiven | doll-replica-c/message_queue.c:35-104 | in every run the log of accepted messages is what the steps added |
| MessageQueue.NineFit | doll-replica-c/message_queue.c:39-43 | of any texts added to the empty queue the first nine wait in order, and every further one is refused |
| QueueRuns.FaithfulExactly | doll-replica-c/message_queue.c:54-69 | FIFO with the flag's frame types in every state if and only if no text probe meets a flagged slot |
| QueueRuns.UntornExactly | doll-replica-c/websocket_client.c:94-141 | a run ending outside the callback is of that kind if and only if in every callback that found the queue empty the first addition between the probes, if any, is a text in a slot never used for binary |
| QueueRuns.UndisturbedDelivers | doll-replica-c/websocket_client.c:94-141 | with undisturbed callbacks every state is FIFO and cleanup leaves nothing |
| QueueRuns.ReadsExactly | doll-replica-c/message_queue.c:63-64 | one text probe delivers the oldest payload, whatever its buffer held, if and only if the slot is inline and its buffer holds a NUL but none before the payload's last byte |
| QueueRuns.FifoExactly | doll-replica-c/message_queue.c:35-139 | FIFO of payloads in every state if and only if all text probes meet such slots |
| QueueRuns.WindowedExactly | doll-replica-c/message_queue.c:106-134 | slots outside the window own nothing in every state if and only if no text probe meets a slot that owns a buffer |
| MessageQueue.BuffersAccountedFor | doll-replica-c/message_queue.c:88-134 | in those runs each allocation is owned by one slot of the window or was freed once |
| QueueSafety.NeverFreedTwice | doll-replica-c/message_queue.c:71-139 | in every run an allocation is live or freed, not both, freed at most once, and slots own only live ones |
| QueueSafety.LeakedExactly | doll-replica-c/message_queue.c:81-99 | an allocation is out of reach if and only if adding a binary message overwrote its pointer |
| QueueSafety.CleanupExactly | doll-replica-c/message_queue.c:19-33 | cleanup leaves no allocation if and only if that never happened |
| MessageQueue.FrameTypeExactly | doll-replica-c/message_queue.c:45-48 | in guarded runs a message is framed as binary if and only if it or an earlier one in its place was added as binary |
| MessageQueue.CallbackDelivers | doll-replica-c/websocket_client.c:94-141 | an undisturbed callback delivers exactly the oldest message |
| MessageQueue.NonEmptyProbeIsSafe | doll-replica-c/websocket_client.c:102-125 | additions between the probes are harmless if the first found the queue non-empty |
| MessageQueue.TornCallbackLosesLarge | doll-replica-c/websocket_client.c:102-125 | if it found it empty, a large message added then is lost and its buffer stays outside the window |
| QueueInvariant.StepKeeps | doll-replica-c/message_queue.c:35-139 | every guarded step keeps FIFO, ownership and flag invariants |
| MessageQueue.Queue.AddMessage | doll-replica-c/message_queue.c:35-52 | accepts unless the next tail is the head; the text, cut to 65535 bytes, is in the slot at the tail with its NUL and its length, and nothing else changes |
| MessageQueue.Queue.AddBinaryMessage | doll-replica-c/message_queue.c:71-104 | accepts unless full or a needed allocation fails; up to 65536 bytes go into the slot, more into a buffer it owns |
| MessageQueue.Queue.TryBinary | doll-replica-c/message_queue.c:106-139 | the first probe with its frame and free: succeeds exactly on a flagged slot at the head and sends what it holds |
| MessageQueue.Queue.CopyText | doll-replica-c/message_queue.c:63-64 | the copy up to the first NUL, then what the callback's buffer held, as long as the slot says |
| MessageQueue.Queue.TryText | doll-replica-c/message_queue.c:54-69 | the second probe with its frame, whatever slot it meets |
| MessageQueue.Queue.Writeable | doll-replica-c/websocket_client.c:94-141 | the callback is the two probes in order |
| MessageQueue.Queue.Cleanup | doll-replica-c/message_queue.c:19-33 | frees exactly what the slots own and clears their pointers |
| RiffPlayback.ScanIsLoop | doll-replica-c/audio.c:307-329 | the recursive scan and the loop agree, round for round |
| RiffPlayback.StuckExactly | doll-replica-c/audio.c:318-325 | the scan does not end if and only if it reaches a header other than `data` of size 0xFFFFFFF8 |
| RiffPlayback.TerminatesExactly | doll-replica-c/audio.c:307-329 | the same of the loop itself, for every file |
| RiffPlayback.FindData | doll-replica-c/audio.c:296-334 | the loop computes the scan; files that are not RIFF are played from the start |
| RiffPlayback.ScanFindsPayload | doll-replica-c/audio.c:307-329 | for every list of skippable chunks followed by data, the scan ends in bounds at the payload's first byte |
| RiffPlayback.PlayBlocks | doll-replica-c/audio.c:343-360 | every byte once, in order, in full blocks but the last, up to a block the device refuses |
| RiffPlayback.ScanMissesEmpty | doll-replica-c/audio.c:307-317 | with nothing after the data header the scan ends at the header itself |
| RiffPlayback.PlayAudio | doll-replica-c/audio.c:290-366 | on arbitrary data and any device: what does not start with RIFF is played whole; a RIFF file is stuck, past the end, or played from where the scan ends |
| RiffPlayback.PlayFile | doll-replica-c/audio.c:290-366 | scan and playback together hand over the bytes after the data header, up to a block the device refuses |
| RiffPlayback.EvenNeedsNoPad | doll-replica-c/audio.c:318-325 | padded and unpadded files are the same while all bodies are even |
| RiffPlayback.OddPadMisleads | doll-replica-c/audio.c:318-325 | for all files with an odd chunk right before the data and even chunks before that one, the scan never ends at the payload |
| RiffPlayback.PaddingExactly | doll-replica-c/audio.c:318-325 | with even chunks up to the last, a padded file is read right if and only if the last is even |
| RiffPlayback.MisreadHeader | doll-replica-c/audio.c:318-325 | where the scan goes from a pad byte in front of any header |
| RiffPlayback.MisreadCanResync | doll-replica-c/audio.c:318-325 | behind an odd chunk, a chunk whose misread header leads to its end has its file read right |
| RiffPlayback.ParityIsNotEnough | doll-replica-c/audio.c:318-325 | such chunks exist, even and odd |
| Recorder.PrefixExactly | doll-replica-c/audio.c:54-58 | the buffer is the longest whole-block prefix that fits if and only if no later block fits the room left |
| Recorder.SameSizeIsPrefix | doll-replica-c/audio.c:54-58 | with blocks of one size it always is |
| Recorder.Recorder.Activate | doll-replica-c/audio.c:197-199 | a new recording starts empty, without a callback yet |
| Recorder.Recorder.Capture | doll-replica-c/audio.c:37-68 | a block goes to the callback if one is set, and into the buffer if it fits whole |
| Recorder.Recorder.GetRecorded | doll-replica-c/audio.c:238-262 | returns exactly the kept bytes, or nothing while active or empty |
| UploadPipeline.SentIsPrefix | agentic/adapters/http/handler.go:211-249 | at every moment the bytes sent are a prefix of the body in non-empty chunks of at most 4096 |
| UploadPipeline.WholeBodyExactly | agentic/adapters/http/handler.go:218-227 | after a normal end what is missing is what came with end of file; the whole body was sent if and only if that is nothing |
| UploadPipeline.StopsExactly | agentic/adapters/http/handler.go:220-247 | each goroutine has left its loop if and only if the run has one of its ending steps: read error, end of file, duration limit, done context; end of stream, send error |
| UploadPipeline.NothingAfterStop | agentic/adapters/http/handler.go:220-247 | after that no byte read later, or no byte at all, is sent, in every continuation |
| UploadPipeline.OffersExactly | agentic/adapters/http/handler.go:234-240 | in every run a chunk goes onto the channel if and only if fewer than 100 are there; a waiting reader gives up only when the context is done |
| UploadPipeline.ShortBodyIsDropped | agentic/adapters/http/handler.go:218-227 | for every body of 1 to 4096 bytes a run, one read with end of file, in which nothing is sent |
| AudioUpload.Upload.ReadBody | agentic/adapters/http/handler.go:215-247 | a round of the reading loop up to the select: what each result of Read does |
| AudioUpload.Upload.OfferChunk | agentic/adapters/http/handler.go:234-247 | the select puts the chunk behind the others on the channel, or gives up and loses it; then the duration check |
| AudioUpload.Upload.ReceiveChunk | agentic/adapters/speech/google.go:150-159 | takes the oldest chunk, or ends the stream once the channel is closed and empty |
| AudioUpload.Upload.SendChunk | agentic/adapters/speech/google.go:161-172 | the chunk reaches the recogniser, or the goroutine ends with it |
| AudioUpload.Upload.LeaveOnDone | agentic/adapters/speech/google.go:177-180 | the select's done case ends the sending goroutine |
| AudioUpload.Upload.StreamAll | agentic/adapters/http/handler.go:210-249 | an upload nothing cuts short, with end of file on its own, delivers the whole body |
| UploadPipeline.StepKeeps | agentic/adapters/speech/google.go:149-181 | reading, offering, taking, sending and every way of stopping keep the bytes in order |
| ChatHistory.GenerateChat | agentic/adapters/llm/gemini.go:51-94 | the model history a session starts from |
| ChatHistory.GeminiChatSession.SendMessage | agentic/adapters/llm/gemini.go:117-131 | a success records both sides and returns the parts joined, a failure records nothing and returns its error |
| ChatHistory.GeminiChatSession.History | agentic/adapters/llm/gemini.go:133-157 | the history a session stores |
| ChatHistory.Round | agentic/usecase/chat_service.go:44-53 | one round puts the joined reply, or "ERROR: send message: " and the error, on the output |
| ChatHistory.Execute | agentic/usecase/chat_service.go:20-78 | one session: the file it leaves, and for each input in order the joined reply or "ERROR: send message: " and the error |
| ChatHistory.FixedPointsExactly | agentic/adapters/llm/gemini.go:58-94 | which stored histories an empty session leaves as they are |
| ChatHistory.SessionAppends | agentic/usecase/chat_service.go:37-72 | a session appends its turns to any history that starts with the prompt |
| ChatHistory.SessionOnAny | agentic/adapters/llm/gemini.go:58-94 | what a session leaves of any stored history: the prompt, a user copy of it unless the history starts with a system message, what was spoken, the new turns |
| ChatHistory.HistoryAfterSessions | agentic/usecase/chat_service.go:20-78 | after any number of sessions: the system prompt, one user copy of it, then for each successful exchange in order the input and the joined reply |
| ChatHistory.RebuildsWhatItSaved | agentic/adapters/llm/gemini.go:51-157 | rebuilding from the file gives the history the session ended with, parts joined |

## Left out

- Wildcard contexts that are cancelled, several wildcard subscribers, and receiving from a specific subscription's channel: the server has one listener that runs for ever.
- Message timestamps: a message carries the number of the Publish call that built it instead.
- JSON: a payload is either a decoded transcription or undecodable.
- Allocation failure outside `AddBinaryMessage`, including the copies the callback makes.
- RingBuffer.AudioRingBuffer.Write: starts after the wait loop, which RingProtocol models as sleeping and retrying.
- RingBuffer.AudioRingBuffer.Read: likewise.
- Freeing the ring while a thread still waits on it (`cleanup_audio_ring_buffer`).
- StreamingSession.Session.StreamChunk: a send is all or nothing, so partial sends are not modelled; nor are request headers longer than their buffers.
- Base64.DecodeAudio: requires a length that keeps three times itself within a C `int`; what an access out of bounds does is not modelled.
- RiffPlayback.PlayAudio: what is played after a scan that ends past the end of the data, when the unsigned size wraps, is not modelled.
- MessageQueue.TornCallbackLosesLarge: a frame copied without a NUL to stop at may hold any bytes; that the copy also writes past its buffer is not modelled.
- `SendMessage` racing `Close`, the hub's map being read while its goroutine writes it (a lookup is one step), and the write pump and ping loop beyond their calls of `Close`.
- The listener and the pump loops as methods with endless loops: their rounds are steps; `Hub.HandOver` is one listener round.
- AudioUpload.Upload.StreamAll: one schedule, the sender taking each chunk at once; SentIsPrefix and WholeBodyExactly cover all of them.
- The chat service blocked on its output channel when its context ends, overlapping sessions of one user, and file or decoding errors.
- The Gemini library: assumed to record a user and a model turn when a message succeeds and nothing when it fails; the wording of the prompt is a parameter.
- The recogniser's answer and the time-out paths of the HTTP handler, beyond stopping the pipeline at any point.
- PortAudio, libwebsockets, sockets, speech synthesis, JWT, credentials, configuration, logging, the rate limit, the speech cache and the field extraction with `strstr`.
