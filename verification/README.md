# Channel chat: service and socket handler

This is a Dafny model of the core of a reactive chat server. Clients connect over a
WebSocket whose handshake query names a channel (`?channelId=...`). Every event a
client sends is handled in one of two ways:

- A file message goes to file ingestion. Its base64 payload is decoded and stored in
  a blob store. The event is then rewritten to point at the download route, saved and
  emitted to the sink of its channel.
- Any other kind goes to the dispatcher. It stamps the event with the connection's
  channel, saves chat messages and join/leave notices to the event store, and emits
  the event to the channel's sink.

Each connection forwards to its client the events of its channel's sink that carry
its channel id.

The model has four modules:

- `Entity` (`entity.dfy`): the event record and its four kinds. Every nullable field
  is an `Option`.
- `ChannelQuery` (`channel_query.dfy`): the extraction of the channel id from the
  handshake query. The `replaceAll` with the pattern `.*channelId=([^&]+).*` is
  modelled as a backtracking regex matcher runs it, for every query, line terminators
  included.
- `Service` (`service.dfy`): the service class. It holds its registry of per-channel
  sinks (`channelSinks`), the event store and the blob store. It is written as a
  Dafny class whose methods are proved against the abstract state `Snapshot` and the
  specification functions `AfterGetChannelSink`, `AfterProcessEvent` and
  `AfterFileMessage`. The class invariant says two things:
  - each channel has its own sink object;
  - every event a sink has emitted carries that sink's channel id.
- `WebSocket` (`websocket.dfy`): one connection. It covers:
  - extracting the channel and registering its sink;
  - the inbound loop, which routes file messages to ingestion and everything else to
    the dispatcher, and stops at the first frame that throws;
  - the outbound channel-id filter.

The two foreign stores (the event repository and the blob store) are inputs of the
operations that use them. Whether a save succeeds, and which id the blob store
assigns, is given per call. The base64 decoder is an abstract partial function held
by the service.

Two behaviours of the code are easy to miss; the model follows the code in both:

- When the query has no usable `channelId=` key, extraction does not fail. The whole
  query comes back and becomes the channel id (`ExtractWithoutKey`,
  `EmptyValueIsNotAMatch`).
- A file message is emitted to the sink of the channel id the client put in the
  event, not to the connection's channel (`FileFrameFollowsItsOwnChannel`).

## Model

| member | source | states |
|---|---|---|
| ChannelQuery.ExtractChannelId | src/main/java/com/alkl1m/chat/websocket/ChatSocketHandler.java:66-69 | A query-less URI throws (`None`), and every query yields a channel id. On a single-line query with no usable key, the query itself is the channel id. |
| ChannelQuery.ExtractRightmostKey | src/main/java/com/alkl1m/chat/websocket/ChatSocketHandler.java:67-68 | On a single-line query, the channel id is the longest `&`-free run after the rightmost `channelId=` that has a non-`&` character after it. That run is non-empty, holds no `&`, and ends at an `&` or at the end of the query. |
| ChannelQuery.ExtractWithoutKey | src/main/java/com/alkl1m/chat/websocket/ChatSocketHandler.java:67-68 | A single-line query without a usable key is returned unchanged. |
| ChannelQuery.SubstringKey | src/main/java/com/alkl1m/chat/websocket/ChatSocketHandler.java:67-68 | The key is matched as a substring: `xchannelId=a` gives `a`. |
| ChannelQuery.EmptyValueIsNotAMatch | src/main/java/com/alkl1m/chat/websocket/ChatSocketHandler.java:67-68 | A key followed directly by `&` does not match, so `channelId=&room=1` comes back whole. |
| ChannelQuery.RightmostKeyWins | src/main/java/com/alkl1m/chat/websocket/ChatSocketHandler.java:67-68 | Greedy `.*` makes the last of two keys win: `channelId=a&channelId=b` gives `b`. |
| Service.History | src/main/java/com/alkl1m/chat/service/impl/ChatServiceImpl.java:81-84 | A channel's history holds exactly the stored events with that channel id, and is no longer than the store. |
| Service.ProcessEventEffect | src/main/java/com/alkl1m/chat/service/impl/ChatServiceImpl.java:44-60 | `processEvent` changes only the channel id of the event. It saves the event if and only if its kind is chat, joined or left and the save succeeds; a file message is never saved here. It publishes only to an already registered sink, leaves every other sink and the blob store alone, and registers no sink. |
| Service.ProcessEventTwiceKeepsOrder | src/test/java/com/alkl1m/chat/service/impl/ChatServiceImplTest.java:135-157 | Two events processed on one channel appear in the store, in the channel's history and in the channel's sink in call order. |
| Service.SavedEventEndsHistory | src/main/java/com/alkl1m/chat/service/impl/ChatServiceImpl.java:44-54 | A saved event of a persisted kind becomes the last entry of its channel's history. |
| Service.GetChannelSinkOnce | src/main/java/com/alkl1m/chat/service/impl/ChatServiceImpl.java:68-73 | After `getChannelSink(c)`, `c` has a sink: a new empty one only if it had none. No other entry, the store or the blob store changes, and a second call changes nothing. |
| Service.FileMessageStored | src/main/java/com/alkl1m/chat/service/impl/ChatServiceImpl.java:115-141 | A stored file message loses its payload and gets the download route plus file id as its message and the file id as its id. It keeps its channel, kind, nickname and filename. The blob store holds the decoded bytes under that id, the event is saved if and only if the save succeeds, and it is published to its own channel's sink. When the id is new, as the blob store's generated ids are, every earlier file is kept. |
| Service.FileMessageStoreFailed | src/main/java/com/alkl1m/chat/service/impl/ChatServiceImpl.java:133-139 | When the blob store fails, nothing is stored or saved, and the event is still emitted unchanged to its own channel's sink. |
| Service.OperationsKeepSinksIsolated | src/main/java/com/alkl1m/chat/service/impl/ChatServiceImpl.java:56-59 | None of the three operations ever makes a sink hold an event of another channel. |
| Service.PublishKeepsIsolated | src/main/java/com/alkl1m/chat/service/impl/ChatServiceImpl.java:134-137 | Emitting an event to the sink of its own channel id keeps every sink isolated. |
| Service.Sink.EmitNext | src/main/java/com/alkl1m/chat/service/impl/ChatServiceImpl.java:58 | Emission appends the event to what the sink has emitted. |
| Service.ChatServiceImpl.GetChannelSink | src/main/java/com/alkl1m/chat/service/impl/ChatServiceImpl.java:68-73 | Returns the registered sink, or registers and returns a fresh one. The new state is `AfterGetChannelSink` of the old one, and the class invariant is kept. |
| Service.ChatServiceImpl.ProcessEvent | src/main/java/com/alkl1m/chat/service/impl/ChatServiceImpl.java:44-60 | Returns the stamped event. The new state is `AfterProcessEvent` of the old one, the registry is unchanged and the class invariant is kept. |
| Service.ChatServiceImpl.HandleFileMessage | src/main/java/com/alkl1m/chat/service/impl/ChatServiceImpl.java:115-141 | A payload that does not decode (or is null) throws before anything changes. Otherwise the new state is `AfterFileMessage` of the old one, with the decoded bytes. |
| Service.ChatServiceImpl.StoreFile | src/main/java/com/alkl1m/chat/service/impl/ChatServiceImpl.java:123-138 | The store, rewrite, save and emit pipeline: the emitted event is `FileResult` and the new state is `AfterFileMessage`. |
| Service.ChatServiceImpl.GetMessagesByChannelId | src/main/java/com/alkl1m/chat/service/impl/ChatServiceImpl.java:81-84 | Returns exactly the stored events of the channel, as `History`. |
| Service.ChatServiceImpl.EmitIfRegistered | src/main/java/com/alkl1m/chat/service/impl/ChatServiceImpl.java:56-59 | Emits to the channel's sink only when one is registered, leaves every other sink as it was, and keeps the invariant. |
| WebSocket.RouteEffect | src/main/java/com/alkl1m/chat/websocket/ChatSocketHandler.java:43-49 | One frame appends its event to the store exactly when it is saved, registers no sink, and appends to every sink exactly the event targeted at it. File messages are targeted at their own channel id, everything else at the connection's channel. Isolation is kept. |
| WebSocket.ReceiveEffect | src/main/java/com/alkl1m/chat/websocket/ChatSocketHandler.java:40-49 | A run of frames appends to the store exactly the saved events, in frame order. It appends to every registered sink exactly the events targeted at its channel, in frame order, registers no sink, and keeps isolation. |
| WebSocket.IdsOf | src/main/java/com/alkl1m/chat/service/impl/ChatServiceImpl.java:123-124 | The ids the frames store files under are exactly the ids of the frames whose file the blob store accepted. |
| WebSocket.ReceiveKeepsFiles | src/main/java/com/alkl1m/chat/service/impl/ChatServiceImpl.java:123-129 | When the blob store hands out new ids, as its generated ids are, handling frames keeps every earlier file and adds one file per accepted upload and no other. At the end each of those files still holds its frame's decoded bytes and filename. |
| WebSocket.OwnEventsEchoed | src/test/java/com/alkl1m/chat/websocket/ChatSocketHandlerTest.java:69-75 | Every non-file event a connection sends is published, stamped, to its own channel's sink. |
| WebSocket.FileFrameFollowsItsOwnChannel | src/main/java/com/alkl1m/chat/websocket/ChatSocketHandler.java:44-45 | A file message that names another channel reaches that channel's sink and not the sender's. |
| WebSocket.ChatFramesAllSaved | src/main/java/com/alkl1m/chat/websocket/ChatSocketHandler.java:43-49 | Well-formed chat messages whose saves succeed are all handled, and each one is saved stamped, in order. |
| WebSocket.FiveChatMessagesStored | src/test/java/com/alkl1m/chat/websocket/ChatSocketHandlerTest.java:62-77 | Five chat messages on one connection leave five more events in the store. |
| WebSocket.Outbound | src/main/java/com/alkl1m/chat/websocket/ChatSocketHandler.java:51-54 | Forwards only events of the sink that carry the connection's channel id. |
| WebSocket.OutboundComplete | src/main/java/com/alkl1m/chat/websocket/ChatSocketHandler.java:52 | When every event has a channel id, every event of the connection's channel is forwarded. |
| WebSocket.OutboundAppend | src/main/java/com/alkl1m/chat/websocket/ChatSocketHandler.java:51-52 | Filtering what was emitted earlier and what is emitted later gives the filter of the whole. |
| WebSocket.OutboundOfOwnChannel | src/main/java/com/alkl1m/chat/websocket/ChatSocketHandler.java:51-52 | On a sink that only holds its own channel's events, the filter forwards everything, in order. |
| WebSocket.Handle | src/main/java/com/alkl1m/chat/websocket/ChatSocketHandler.java:34-58 | A query-less URI fails with nothing changed. Otherwise the connection is bound to the extracted channel, whose sink is registered. The frames before the first one that throws are handled, and the new state is the fold `Receive` over them. The client is sent exactly the events published to its channel's sink during the session, all of them of its channel. |
| WebSocket.ReceiveFrames | src/main/java/com/alkl1m/chat/websocket/ChatSocketHandler.java:40-49 | Handles frames in order until one throws. The new state is `Receive` over the handled prefix, and the registry does not change. |

## Left out

- Concurrency: the inbound and outbound flows of a connection and several connections run concurrently in the source. Here the outbound subscription is taken once the sink is registered, and frames are handled one at a time.
- Fire-and-forget saves: the repository's save and the blob store run asynchronously in the source, and their timing relative to emission is not modelled. Their outcome is a per-call input (`saved`, `BlobReply`), and failures only log.
- WebSocket.ReceiveEffect, WebSocket.Handle: the model emits a file message's event before the next frame is handled. In the source the emission of a file message runs in `doOnTerminate` of an asynchronous chain that `subscribe()` starts and does not wait for (ChatServiceImpl.java:133-140), so it happens whenever the blob store and the save finish: after the events of later frames, or after the sending connection has closed. The frame order these two members state for sinks and for what a client is sent therefore holds in the source only for frames that are not file messages.
- Service.ChatServiceImpl.ProcessEvent: `tryEmitNext(...).orThrow()` is taken to succeed. Backpressure overflow and emission failure are not modelled.
- Service.Sink.EmitNext: the multicast sink's warm-up buffer replayed to the first subscriber, and cancellation when the last subscriber leaves, are not modelled. A sink is the sequence of everything emitted to it.
- Service.FileMessageStored, Service.ChatServiceImpl.StoreFile: the blob store's reply is not constrained to a new id, so the state functions allow an upload to replace an earlier file, which the blob store's generated ids never do. Freshness is a hypothesis of the properties that need it: the `f !in s.blobs` case of `FileMessageStored`, and `FreshIds` in `WebSocket.ReceiveKeepsFiles`.
- Mongo's upsert on save and its id assignment are not modelled: the event store is an append-only sequence.
- Base64 decoding is an abstract partial function given to the service. A null payload is treated like a malformed one.
- JSON encoding and decoding of frames: a frame arrives already decoded, and `None` stands for text that does not parse.
- File download (`downloadFileById`) and the blob store's internals are not part of this model.
- Service.ChatServiceImpl.HandleFileMessage: for an event with a null channel id, the source's `channelSinks.get(null)` throws inside the termination callback. That is modelled as no emission.
- WebSocket.Outbound: in the source an event without a channel id makes `equals` throw in the filter, which fails the send and with it the whole session, inbound flow included (ChatSocketHandler.java:52, 56-57); the model only ends the outbound sequence there. Events of other channels cannot be present, because sinks stay isolated.
- WebSocket.Handle: the echo of the client's own events is stated by `OwnEventsEchoed` together with `delivered == PublishedTo(c, c, ...)`, not in `Handle`'s own contract.
- The older socket handler under `config/`, the STOMP controllers, the REST controller, the service interface and the web UI are not part of this model.
- Logging is not modelled.
