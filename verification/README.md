# DebugRouter, verified

A Dafny model of the parts of DebugRouter whose correctness depends on every interleaving,
every way of cutting a byte stream, or every history of events, with proofs about all of them.

DebugRouter connects an app (native C++) to a desktop connector (TypeScript). The model covers:

- `ServerState`: the lock-free coalescing of server start/stop requests in the core.
- `Options`, `BitOps`: what several modules share.
- `Bytes`, `Framing`, `ClientAdapter`, `UsbClientIo`, `UsbDispatch`: the USB wire format, written and read
  in both languages, down to the growable receive buffer, the short-read loop and the message queue.
- `Md5Block`, `Md5`: the streaming MD5 hash against RFC 1321.
- `SocketServer`, `UsbClientCallbacks`: succession of USB clients, and which callbacks one client makes.
- `CoreConnection`: the connection and retry machine of the core.
- `Mirrors`, `Connector`: the connector's device and client mirrors, fed by daemon snapshots.
- `ClientRegistry`: client ids, ports and clients of all devices.
- `ReportBridge`: the bounded report queue whose send callback calls back into it.
- `WebSocketFrames`, `UrlCodec`, `WebSocketUrl`: WebSocket frames against RFC 6455, percent-decoding
  against RFC 3986, and WebSocket URL parsing against a grammar.

A protocol is a value `State`, a function `Do` for one atomic step (a step that is not possible
changes nothing), a fold `Run`, and theorems about every `Run`. Where the program updates an object
in place there is a class; its methods are proved equal to those steps, or to a reference function.
`dafny verify dfyconfig.toml` checks everything.

## What turned out differently

- Loop iterations of the update task can exceed the calls of `UpdateServerState`: two calls can cost
  three iterations. The exact bound is 2n - 1 (`IterationBound`, `IterationBoundIsTight`); one iteration
  per call suffices if no caller stands between its store and its exchange when the update task clears
  `dirty` (`PromptIterationBound`), and `IterationsWithinCallsIff` is the exact condition.
- The comment above `MD5::finalize` calls the length MSB-first; the code writes it low word first, as
  section 3.2 of RFC 1321 asks, and the model follows the code.
- `WrapHeader` and `packMessage` put different values in the fourth header word, and only the native
  reader looks at it. Native to connector and connector to native are proved. A native reader drops every
  natively wrapped frame (`WrappedFramesAreDropped`), so it gets the messages back iff there are none
  (`NativeToNativeIff`).
- `OnClose` may be called before `OnOpen` (`CloseMayPrecedeOpen`). It comes after in every run in which
  nobody takes `is_connected_` between the mark and the call of `OnOpen` (`CloseFollowsOpen`), and
  `CloseCanOvertakeIff` says exactly when it can still come first. An opened client may never see a close
  (`OpenWithoutClose`); `CloseFiresIff` says exactly when.
- A message that reads "quit" ends the dispatch of a USB client: all messages that are not empty reach
  `OnMessage` iff none is that word (`AllDispatchedIff`).
- `UsbClient::Send` accepts a message of exactly 2^32 - 20 octets, for which the 32-bit total of `WrapHeader`
  wraps to zero (`Send`).
- `CONNECTED` does not imply a transceiver (`ConnectedWithoutTransceiver`, `ConnectedLacksTransceiverIff`).
- A snapshot that lists a client of a mirrored device without the device leaves the client connected to
  nothing (`OrphanedClient`); `ContainedThroughoutIff` is the exact condition over whole runs.
- A port is marked connected iff it has exactly one live client only because the scan connects unmarked
  ports (`SamePortTwice`): over whole runs it is so iff no marked port is connected (`MarksExactIff`).
- A client at port zero is never quite removed (`PortZeroSticks`), since zero is taken for no port.
- Disabling the debug channel over USB tells no listener (`DisableIsSilent`).
- Client ids are all different iff at most 2^32 were handed out; the last of these is -1 (`IdsDifferIff`).
- A report made from inside the send callback can overtake queued ones (`ReentrantReportOvertakes`). Reports
  are in order throughout a run iff none comes while the status is forward and the queue is not empty
  (`OrderedIffCalm`).
- `SendInternal` produces a readable frame iff the data is shorter than 2^32 octets, and `do_read` recovers
  a complete frame iff it is final, unmasked, without RSV1 and shorter than 2^31 octets.

## Model

| member | source | states |
|---|---|---|
| `ServerState.Quiescence` | debug_router/native/core/debug_router_core.cc:911-1033 | the flags are what the requests made them; after every interleaving that comes to rest the cached server state and the last command of each transceiver are on iff all sessions were ever enabled or the last request about the debug channel was to enable it |
| `ServerState.FlagsFollowRequests` | debug_router/native/core/debug_router_core.cc:966-972 | over every run, whoever else moves, all sessions are enabled iff that was ever requested, and the debug channel follows the last request about it |
| `ServerState.CallsAreToggles` | debug_router/native/core/debug_router_core.cc:1014-1033 | every request that changes a flag makes exactly one call of `UpdateServerState`, and nothing else does |
| `ServerState.SingleTask` | debug_router/native/core/debug_router_core.cc:916-964 | in every reachable state `scheduled` is true iff exactly one caller about to post, queued task or owning task exists |
| `ServerState.RoundsAlternate` | debug_router/native/core/debug_router_core.cc:926-948 | start and stop rounds strictly alternate, starting with start, each reaching every transceiver in index order |
| `ServerState.IterationBound` | debug_router/native/core/debug_router_core.cc:916-964 | n calls cause at most 2n - 1 loop iterations over all tasks together |
| `ServerState.IterationBoundIsTight` | debug_router/native/core/debug_router_core.cc:916-964 | for every n some run of n calls takes exactly 2n - 1 iterations |
| `ServerState.PromptIterationBound` | debug_router/native/core/debug_router_core.cc:916-964 | with callers that claim before the update task clears their store, iterations never exceed calls |
| `ServerState.IterationsWithinCallsIff` | debug_router/native/core/debug_router_core.cc:916-964 | iterations stay within calls iff no more iterations found `dirty` clear than calls found it raised, counting the raise that still stands |
| `ServerState.DrainsToQuiescence` | debug_router/native/core/debug_router_core.cc:916-964 | once callers stop, only a bounded number of steps is left, and the system can stop moving only when quiescent, with the server state the requests asked for |
| `ServerState.WorkShrinks` | debug_router/native/core/debug_router_core.cc:922-963 | every step of a caller or the update task, in any order, reduces the work left |
| `ServerState.RunKeepsInv` | debug_router/native/core/debug_router_core.cc:911-1033 | token, freshness, command-log and work invariants hold over every run |
| `Bytes.WordRoundTrip` | debug_router/native/core/util.cc:41-54 | big-endian decoding undoes encoding on every 32-bit value |
| `Bytes.WordIsOnlyEncoding` | debug_router/native/core/util.cc:41-54 | and encoding undoes decoding on every four octets |
| `Bytes.IntToCharArray` | debug_router/native/core/util.cc:41-46 | the array holds the big-endian octets, which decode to the value |
| `Bytes.DecodePayloadSize` | debug_router/native/core/util.cc:48-54 | the shifting loop computes the big-endian value of up to four octets |
| `Framing.FrameFields` | debug_router_connector/src/usb/utils.ts:10-21 | every field of a frame, the payload and whatever follows are found where both receivers look for them |
| `Framing.ParseConcat` | debug_router_connector/src/usb/ClientAdapter.ts:120-151 | the reference parse can be interrupted at any octet and resumed on the undecoded rest |
| `Framing.ChunkingIndependent` | debug_router_connector/src/usb/ClientAdapter.ts:120-151 | parsing chunk by chunk equals parsing the concatenated stream, for every chunking |
| `Framing.RestHasNoFrame` | debug_router_connector/src/usb/ClientAdapter.ts:123-150 | what is left never contains a complete frame |
| `Framing.ParseWrapped` | debug_router/native/socket/usb_client.cc:392-422 | the concatenated `WrapHeader` outputs parse back to exactly the messages, with nothing left |
| `Framing.ScanConcat` | debug_router/native/socket/usb_client.cc:226-361 | the native reader, too, can be interrupted anywhere before a foreign header |
| `Framing.ScanPacked` | debug_router_connector/src/usb/utils.ts:10-21 | of any prefix of packed messages the native reader accepts every header and yields a prefix of the messages; of all of it, all of them |
| `Framing.ScanConserves` | debug_router/native/socket/usb_client.cc:226-361 | on every stream, accepted frames, dropped prefixes and the rest add up to the octets read |
| `Framing.WrappedFramesAreDropped` | debug_router/native/core/util.cc:76-84 | the native reader drops the prefix of a natively wrapped frame and goes on inside its payload |
| `Framing.NativeToNativeIff` | debug_router/native/core/util.cc:76-84 | the native reader gets a list of natively wrapped messages back iff the list is empty |
| `ClientAdapter.Adapter.HandleUnpackMessage` | debug_router_connector/src/usb/ClientAdapter.ts:94-151 | appends exactly the frames the reference parse finds in live octets plus data, and keeps its rest live, through compaction, growth and reset |
| `ClientAdapter.Adapter.MakeRoom` | debug_router_connector/src/usb/ClientAdapter.ts:103-118 | keeps the live octets, makes room, and any growth ends below twice the octets needed |
| `ClientAdapter.Adapter.Grow` | debug_router_connector/src/usb/ClientAdapter.ts:109-111 | the result is a doubling of the capacity, large enough and below twice the need |
| `ClientAdapter.Adapter.Drain` | debug_router_connector/src/usb/ClientAdapter.ts:123-150 | the decode loop delivers the messages of the reference parse and keeps its rest |
| `ClientAdapter.Adapter.DecodeOne` | debug_router_connector/src/usb/ClientAdapter.ts:124-149 | takes the first frame off the live octets iff it is complete |
| `ClientAdapter.FeedChunks` | debug_router_connector/src/usb/ClientAdapter.ts:94-151 | for every list of chunks, messages and rest equal those of one parse of the whole stream |
| `ClientAdapter.ReceiveWrapped` | debug_router/native/socket/usb_client.cc:392-422 | any chunking of the wrapped messages delivers exactly the messages and leaves the buffer empty |
| `UsbClientIo.WrapHeader` | debug_router/native/socket/usb_client.cc:392-422 | for every message: the octets built are the frame with n + 20 in the fourth word, unless the 32-bit total wraps, which it does iff n + 20 reaches 2^32 |
| `UsbClientIo.Send` | debug_router/native/socket/usb_client.cc:480-491 | accepts up to 2^32 - 20 octets; an accepted message is framed iff it is not of exactly that length |
| `UsbClientIo.CheckHeaderThreeBytes` | debug_router/native/core/util.cc:56-74 | true iff the first three words are version, text type and default tag |
| `UsbClientIo.CheckHeaderFourthByte` | debug_router/native/core/util.cc:76-84 | true iff the fourth word is the payload size plus four, modulo 2^32 |
| `UsbClientIo.Reader.Read` | debug_router/native/socket/usb_client.cc:162-224 | under any pattern of short reads, timeouts, errors and stops the buffer holds exactly the octets consumed, and Ok means all of them; anything else is a stop, the end of the stream, or an error with its code |
| `UsbClientIo.Reader.ReadFrame` | debug_router/native/socket/usb_client.cc:239-354 | one turn consumes what the reference reader consumes, puts the payload iff accepted and kept, and reports open iff a first valid header was read |
| `UsbClientIo.Reader.ReadMessage` | debug_router/native/socket/usb_client.cc:226-361 | whatever the socket does and whenever another thread stops the client, this thread puts exactly the payloads of the octets consumed that pass the filter, then the quit marker, twice if it shut down itself; and it ends only at the end of the stream, a socket error, another thread's stop or a foreign header |
| `UsbDispatch.MessageDispatcher` | debug_router/native/socket/usb_client.cc:369-385 | hands over the messages that are not empty, up to the first quit marker |
| `UsbDispatch.DispatchedIsCut` | debug_router/native/socket/usb_client.cc:65-72 | quit markers that other threads put into the same queue, at any points, cut the dispatch short there and do nothing else |
| `UsbDispatch.AllDispatchedIff` | debug_router/native/socket/usb_client.cc:374-383 | every message that is not empty is handed over iff none of them is the quit marker |
| `UsbDispatch.KeptSelects` | debug_router/native/socket/usb_client.cc:349-353 | the filter lets through exactly the payloads at the positions it does not drop, in order |
| `UsbDispatch.DispatchedSelects` | debug_router/native/socket/usb_client.cc:369-385 | the dispatcher hands over exactly the messages before the first quit marker that are not empty, in order |
| `UsbDispatch.ReadPacked` | debug_router/native/socket/usb_client.cc:226-361 | for every list of packed messages and every pattern of reads the reader puts exactly the messages, among those complete in the octets it read, that the filter does not drop, in order, then quit markers; if the socket neither ends nor fails early and nobody stops the client, every message has been read |
| `UsbDispatch.ReceivePacked` | debug_router/native/socket/usb_client.cc:226-385 | whatever quit markers other threads add, OnMessage gets the dispatch of a prefix of those payloads, and of all of them if no marker comes before the reader is through; with short reads and timeouts only, no stop, and nothing dropped, empty or "quit", OnMessage gets exactly the messages sent |
| `Md5Block.CoreIsAuxiliary` | debug_router/native/protocol/md5.cc:150-154 | F1 to F4 compute the functions F, G, H and I of section 3.4 of RFC 1321 on all words |
| `Md5Block.LinesMatchRfc` | debug_router/native/protocol/md5.cc:173-239 | each of the 64 lines uses the message word, constant and shift the RFC gives it |
| `Md5Block.StepIsOperation` | debug_router/native/protocol/md5.cc:156-158 | one step is the RFC's operation on the registers |
| `Md5Block.Transform` | debug_router/native/protocol/md5.cc:165-245 | one block is processed as section 3.4 of RFC 1321 says |
| `Md5.Carry` | debug_router/native/protocol/md5.cc:68-71 | the two words hold the octet count modulo 2^64, carry included |
| `Md5.InitialRegisters` | debug_router/native/protocol/md5.cc:50-59 | before the first block the registers are the sixteen octets of section 3.3 of RFC 1321 |
| `Md5.LengthWords` | debug_router/native/protocol/md5.cc:124-126 | the two shifted words are the bit count modulo 2^64, low word first |
| `Md5.PaddedTail` | debug_router/native/protocol/md5.cc:102-132 | closing with one or two blocks equals absorbing the padded message of sections 3.1 and 3.2 |
| `Md5.Hasher.PutLength` | debug_router/native/protocol/md5.cc:124-126 | words 14 and 15 of the last block are the bit count modulo 2^64, low word first, and so are its octets |
| `Md5.Hasher.Update` | debug_router/native/protocol/md5.cc:65-96 | after any update the object stands for the old message followed by the new octets |
| `Md5.Hasher.Finalize` | debug_router/native/protocol/md5.cc:102-132 | the digest is that of the padded whole message |
| `Md5.HashChunks` | debug_router/native/protocol/md5.cc:50-132 | for every split of the input the object, which runs the modelled `transform` on each block, gives the RFC 1321 digest of the concatenation |
| `Md5.TransformOctets` | debug_router/native/protocol/md5.cc:165-245 | `transform` on the little-endian words of a block is the compression function used above |
| `SocketServer.NoClientLeaked` | debug_router/native/socket/socket_server_api.cc:68-218 | after every run every accepted client is current, pending, or has its stop scheduled or done |
| `SocketServer.AllStoppedAfterStop` | debug_router/native/socket/socket_server_api.cc:244-276 | once stopped, and after as many cleaner runs as stops were queued, every client ever accepted has been stopped |
| `SocketServer.SessionIsReported` | debug_router/native/socket/socket_server_api.cc:68-218 | over every run: a client that is accepted and opens in time becomes current and is reported connected, each of its messages is forwarded once, unchanged and in order, until it ends, is taken away or superseded, and its end is reported with its status |
| `SocketServer.SilentUntilOpen` | debug_router/native/socket/socket_server_api.cc:244-333 | after Disconnect or StopServer nothing is reported or forwarded until a client opens |
| `SocketServer.PromotionsIncrease` | debug_router/native/socket/socket_server_api.cc:68-94 | clients become current in accept order, strictly if each opens at most once, and each time is reported |
| `SocketServer.PromotionsStrictlyIncrease` | debug_router/native/socket/socket_server_api.cc:68-94 | with every open event made by a call of OnOpen, whatever the threads of each client do, clients become current in strictly increasing accept order |
| `SocketServer.GoneIsFinal` | debug_router/native/socket/socket_server_api.cc:68-276 | an accepted client that is neither current nor pending, however it went, is never current, pending, promoted or reported again |
| `SocketServer.EndIsFinal` | debug_router/native/socket/socket_server_api.cc:114-218 | so for a client once its close or error is handled, or once it is disconnected, whatever arrives late |
| `SocketServer.ReportsAreExact` | debug_router/native/socket/socket_server_api.cc:96-218 | every end report and forwarded message follows the connect report of the same client, with only its messages between |
| `SocketServer.LastHeardIsCurrent` | debug_router/native/socket/socket_server_api.cc:68-333 | the client the listener last heard connect is the current one or, if there is none, the one that Disconnect or StopServer, which report nothing, took away last |
| `SocketServer.ConnectBetweenEnds` | debug_router/native/socket/socket_server_api.cc:114-218 | between two end reports there is a connect report |
| `SocketServer.RunKeepsInv` | debug_router/native/socket/socket_server_api.cc:68-333 | the succession invariants hold over every run |
| `SocketServer.Server.AcceptClient` | debug_router/native/socket/posix/socket_server_posix.cc:125-141 | installs the new pending client and schedules the stop of the old one, as the Accept step |
| `SocketServer.Server.HandleOnOpenStatus` | debug_router/native/socket/socket_server_api.cc:68-94 | performs the Open step: the pending client becomes current and is reported, and the old one is stopped |
| `SocketServer.Server.HandleOnMessageStatus` | debug_router/native/socket/socket_server_api.cc:96-112 | performs the Message step: forwards iff the client is current |
| `SocketServer.Server.HandleOnEndStatus` | debug_router/native/socket/socket_server_api.cc:114-218 | performs the End step: reports iff the client was current, and stops it either way |
| `SocketServer.Server.DisconnectClient` | debug_router/native/socket/socket_server_api.cc:317-333 | performs the Disconnect step and nothing else |
| `SocketServer.Server.Stop` | debug_router/native/socket/socket_server_api.cc:244-276 | performs the StopServer step and nothing else |
| `UsbClientCallbacks.CallbacksFireOnce` | debug_router/native/socket/usb_client.cc:74-102 | under every interleaving of reader and writer OnOpen, OnError and OnClose fire at most once each |
| `UsbClientCallbacks.CallbacksAreOrdered` | debug_router/native/socket/usb_client.cc:226-361 | OnOpen and OnClose come only after a valid first header marked the client, OnError only after OnOpen |
| `UsbClientCallbacks.CloseFiresIff` | debug_router/native/socket/usb_client.cc:86-102 | when both threads are done OnClose has fired iff the winning thread took the mark after it was set |
| `UsbClientCallbacks.ErrorFiresIff` | debug_router/native/socket/usb_client.cc:74-84 | when both threads are done OnError has fired iff a read failed behind the first header or a send failed |
| `UsbClientCallbacks.CloseFollowsOpen` | debug_router/native/socket/usb_client.cc:226-361 | OnClose comes after OnOpen unless is_connected_ was taken between the mark and the call of OnOpen |
| `UsbClientCallbacks.CloseCanOvertakeIff` | debug_router/native/socket/usb_client.cc:74-102 | with the reader about to call OnOpen, some continuation calls OnClose first iff is_connected_ was not taken before the mark |
| `UsbClientCallbacks.CloseMayPrecedeOpen` | debug_router/native/socket/usb_client.cc:226-361 | a run in which OnClose is called before OnOpen |
| `UsbClientCallbacks.OpenWithoutClose` | debug_router/native/socket/usb_client.cc:424-467 | a run that opens, ends both threads and never closes |
| `UsbClientCallbacks.RunKeepsInv` | debug_router/native/socket/usb_client.cc:65-102 | the flags, the threads' positions and the callbacks made agree over every run |
| `CoreConnection.ReconnectIsHarmless` | debug_router/native/core/debug_router_core.cc:248-304 | after any run a delayed reconnect changes nothing unless the core is disconnected |
| `CoreConnection.ReconnectActsIff` | debug_router/native/core/debug_router_core.cc:248-304 | it acts iff the core is disconnected with a url and a room to go back to |
| `CoreConnection.ReconnectGoesTo` | debug_router/native/core/debug_router_core.cc:248-255 | when a reconnect acts it goes to the stored url, and does nothing else |
| `CoreConnection.GoalIsTarget` | debug_router/native/core/debug_router_core.cc:257-304 | over every run the stored url and room are those of the last explicit connect that took effect, and nothing after a USB open |
| `CoreConnection.ConnectTakesOver` | debug_router/native/core/debug_router_core.cc:257-304 | an explicit connect to another host or room takes the old link down before it goes to the new url, and the link it opens is the only one |
| `CoreConnection.ConnectTwice` | debug_router/native/core/debug_router_core.cc:271-278 | connecting to the same place again is a no-op while the first one lasts |
| `CoreConnection.OpenTakesOver` | debug_router/native/core/debug_router_core.cc:460-506 | whatever opens becomes the only link: another one that is up is told to disconnect first, and the listeners hear of the new one once |
| `CoreConnection.UsbTakesOver` | debug_router/native/core/debug_router_core.cc:460-609 | after a USB open late ends of the WebSocket change nothing, and the end of the USB link is told to the listeners |
| `CoreConnection.DisableIsSilent` | debug_router/native/core/debug_router_core.cc:1022-1033 | disabling the debug channel over USB puts the core down, and nobody is told of any end until something connects or opens again |
| `CoreConnection.HostOfIs` | debug_router/native/core/debug_router_core.cc:259-263 | the host is everything up to the first mark, and empty iff there is none |
| `CoreConnection.UsbOpenSilencesReconnect` | debug_router/native/core/debug_router_core.cc:460-477 | after any USB open of any run reconnects are no-ops until the next explicit connect |
| `CoreConnection.RetryBudget` | debug_router/native/core/debug_router_core.cc:845-855 | at every point at most three reconnects were posted since the last effective explicit connect, and a WebSocket end is told to listeners only after all three |
| `CoreConnection.RetriesAreExact` | debug_router/native/core/debug_router_core.cc:845-855 | over every run exactly one reconnect is posted for each of the first three WebSocket ends since the last explicit connect that took effect, and none for the others |
| `CoreConnection.EndToldIff` | debug_router/native/core/debug_router_core.cc:508-609 | after any run a WebSocket end is told to the listeners iff three reconnects were posted before it, and otherwise posts one more if reconnecting is allowed |
| `CoreConnection.UnreachableServer` | debug_router/native/core/debug_router_core.cc:257-304 | a server that never answers is tried four times and then reported once |
| `CoreConnection.CloseAfterFailureIsFree` | debug_router/native/net/websocket_task.cc:570-609 | a WebSocket failure posts at most one reconnect, and its close changes nothing however late it comes, as long as no WebSocket opens in between |
| `CoreConnection.ConnectedWithoutTransceiver` | debug_router/native/core/debug_router_core.cc:228-236 | a run that ends CONNECTED without a transceiver |
| `CoreConnection.ConnectedLacksTransceiverIff` | debug_router/native/core/debug_router_core.cc:228-236 | a CONNECTED core lacks its transceiver iff the transport was taken down after the last open |
| `CoreConnection.RunKeepsInv` | debug_router/native/core/debug_router_core.cc:248-609 | the stored host is the host prefix of the stored url, and the retry count is the number posted, over every run |
| `CoreConnection.Core.Connect` | debug_router/native/core/debug_router_core.cc:257-304 | the new state is that of the connect step, redundant and reconnecting calls included |
| `CoreConnection.Core.Disconnect` | debug_router/native/core/debug_router_core.cc:228-236 | the new state is that of the disconnect step |
| `CoreConnection.Core.Reconnect` | debug_router/native/core/debug_router_core.cc:248-255 | the new state is that of the reconnect step |
| `CoreConnection.Core.OnOpen` | debug_router/native/core/debug_router_core.cc:460-506 | the new state is that of the open step |
| `CoreConnection.Core.OnClosed` | debug_router/native/core/debug_router_core.cc:508-544 | the new state is that of the close step |
| `CoreConnection.Core.OnFailure` | debug_router/native/core/debug_router_core.cc:546-609 | the new state is that of the failure step |
| `CoreConnection.Core.TryToReconnect` | debug_router/native/core/debug_router_core.cc:845-855 | posts one reconnect iff fewer than three were posted |
| `Mirrors.ReplayRebuildsMirrors` | debug_router_connector/src/connector/DebugRouterConnector.ts:901-926 | over every run replaying the emitted events rebuilds exactly both mirrors, every event was a real change, and the selected client is mirrored |
| `Mirrors.ClientsNeverOutliveDevices` | debug_router_connector/src/connector/DebugRouterConnector.ts:901-992 | if snapshots list the devices of their clients, then after every single event each connected client's device is connected |
| `Mirrors.ContainedThroughoutIff` | debug_router_connector/src/connector/DebugRouterConnector.ts:901-992 | with ids fixed to devices, each connected client's device is connected after every event of every prefix of a run iff each snapshot lists as enabled the device of every client it lists for a mirrored device |
| `Mirrors.SnapshotLeaves` | debug_router_connector/src/connector/DebugRouterConnector.ts:901-992 | a snapshot leaves exactly the devices it lists as enabled and exactly the clients it lists for a device that is mirrored or listed as enabled; whatever was mirrored stays as it was |
| `Mirrors.ResultsAdd` | debug_router_connector/src/connector/DebugRouterConnector.ts:1011-1081 | an answer to a connect call adds exactly the enabled devices, or the clients of mirrored devices, that it lists, and changes nothing else |
| `Mirrors.SelectionIsChosen` | debug_router_connector/src/connector/DebugRouterConnector.ts:1100-1114 | over every run the selection is the last client selected while it was mirrored and not gone since |
| `Mirrors.EnabledBySystem` | debug_router_connector/src/connector/DebugRouterConnector.ts:1046-1063 | each family of systems has its own switch, and others are always enabled |
| `Mirrors.SnapshotContainedIff` | debug_router_connector/src/connector/DebugRouterConnector.ts:901-926 | one snapshot leaves clients within devices iff every listed client of a mirrored device comes with that device, enabled |
| `Mirrors.OrphanedClient` | debug_router_connector/src/connector/DebugRouterConnector.ts:916-926 | a run that leaves a client connected without its device |
| `Mirrors.SyncClientsKeeps` | debug_router_connector/src/connector/DebugRouterConnector.ts:916-926 | the clients left are those listed for mirrored devices, and coherence is kept |
| `Mirrors.ClearKeeps` | debug_router_connector/src/connector/DebugRouterConnector.ts:831-842 | clearing empties both mirrors and takes clients back before their devices |
| `Mirrors.RunKeepsInv` | debug_router_connector/src/connector/DebugRouterConnector.ts:831-1114 | coherence and containment hold over every run whose snapshots list those devices |
| `Connector.DebugRouterConnector.ApplySnapshot` | debug_router_connector/src/connector/DebugRouterConnector.ts:901-914 | the loops carry out the snapshot step exactly |
| `Connector.DebugRouterConnector.SyncClientSnapshots` | debug_router_connector/src/connector/DebugRouterConnector.ts:916-926 | the loops carry out the client part of a snapshot exactly |
| `Connector.DebugRouterConnector.RemoveStaleDevices` | debug_router_connector/src/connector/DebugRouterConnector.ts:986-992 | removes the inactive devices in mirror order |
| `Connector.DebugRouterConnector.UpsertDeviceSnapshots` | debug_router_connector/src/connector/DebugRouterConnector.ts:1011-1028 | adds the enabled devices not yet mirrored, in order |
| `Connector.DebugRouterConnector.UpsertClientSnapshots` | debug_router_connector/src/connector/DebugRouterConnector.ts:1030-1081 | adds the clients of mirrored devices not yet mirrored, in order |
| `Connector.DebugRouterConnector.ClearDaemonMirrors` | debug_router_connector/src/connector/DebugRouterConnector.ts:831-842 | the loops carry out the daemon-disconnect step exactly |
| `ClientRegistry.RegistryIsConsistent` | debug_router_connector/src/usb/ClientController.ts:56-101 | over every run on several controllers with positive ports, while ids last, ids are never reused, both id maps agree, and the driver's clients are the disjoint union of the controllers' |
| `ClientRegistry.LiveClientsAreExact` | debug_router_connector/src/usb/ClientController.ts:56-101 | over every such run each controller has exactly the clients added there and neither removed nor closed since, each at its own port and under its own id |
| `ClientRegistry.MarksExactIff` | debug_router_connector/src/usb/ClientController.ts:56-101 | over every such run a port is marked iff exactly one live id has it, after every prefix, iff no step connects a marked port |
| `ClientRegistry.AddKeepsMarksIff` | debug_router_connector/src/usb/ClientController.ts:80-87 | connecting a port keeps the marks exact iff the port was not marked |
| `ClientRegistry.SamePortTwice` | debug_router_connector/src/usb/ClientController.ts:80-87 | one port connected twice has two live ids behind one mark |
| `ClientRegistry.PortZeroSticks` | debug_router_connector/src/usb/ClientController.ts:95-99 | a client at port zero leaves its mark and its id behind when it is removed |
| `ClientRegistry.IdsDifferIff` | debug_router_connector/src/physical/PhysicalConnector.ts:385-391 | over every run, whatever is done, the ids handed out are 1, 2, 3 and so on until the counter ends and -1 from then on; all are different iff at most 2^32 were |
| `ClientRegistry.RemoveTwice` | debug_router_connector/src/usb/ClientController.ts:89-101 | a removal repeated at once changes nothing, in any state |
| `ClientRegistry.LateRemovalIsHarmless` | debug_router_connector/src/usb/ClientController.ts:89-101 | an id that was handed out and is no longer live never comes back, and removing it again, however late and at whatever controller, changes nothing |
| `ClientRegistry.RemoveAllStep` | debug_router_connector/src/usb/ClientController.ts:191-196 | removing one more connection equals removing it together with the others, so the order is irrelevant |
| `ClientRegistry.RunKeepsInv` | debug_router_connector/src/usb/ClientController.ts:56-101 | the bookkeeping invariants hold over every run |
| `ClientRegistry.PhysicalConnector.CreateClientId` | debug_router_connector/src/physical/PhysicalConnector.ts:385-391 | a fresh id until the counter ends, -1 from then on |
| `ClientRegistry.ClientController.AddClient` | debug_router_connector/src/usb/ClientController.ts:56-87 | updates the three maps and the driver as the add step |
| `ClientRegistry.ClientController.RemoveClient` | debug_router_connector/src/usb/ClientController.ts:89-101 | updates the three maps and the driver as the remove step, unknown ids and port zero included |
| `ClientRegistry.ClientController.CloseAllConnection` | debug_router_connector/src/usb/ClientController.ts:191-196 | the loop removes all connections at once, in whatever order |
| `ReportBridge.ReportsStayInOrder` | debug_router_connector/src/multiplexer/daemon/DaemonReportServiceBridge.ts:30-83 | over every run in which no report overtakes a queued one, delivered then queued reports are in report order without duplicates, at most 100 are queued, and outside a drain a forward status means an empty queue |
| `ReportBridge.NoReportIsLost` | debug_router_connector/src/multiplexer/daemon/DaemonReportServiceBridge.ts:30-88 | on those runs every accepted report is queued, was handed over exactly once, was pushed out by at least a hundred newer ones, or was discarded by close |
| `ReportBridge.ReportsAreRecorded` | debug_router_connector/src/multiplexer/daemon/DaemonReportServiceBridge.ts:30-50 | over every run the bridge accounts for exactly the reports made while it was not closed, in order, each under its own event name |
| `ReportBridge.ForwardedAtOnce` | debug_router_connector/src/multiplexer/daemon/DaemonReportServiceBridge.ts:39-40 | a report made while a connector is attached is handed to it in that very step |
| `ReportBridge.SentToCurrent` | debug_router_connector/src/multiplexer/daemon/DaemonReportServiceBridge.ts:60-79 | every step hands over at most one report, and to the connector attached at that moment |
| `ReportBridge.StatusIsLast` | debug_router_connector/src/multiplexer/daemon/DaemonReportServiceBridge.ts:52-58 | over every run the status is the last one set before the bridge was closed, and closed from then on |
| `ReportBridge.QueuedThenForwarded` | debug_router_connector/src/multiplexer/daemon/DaemonReportServiceBridge.ts:30-83 | reports made with nobody attached are delivered in order to the connector that attaches next, the newest hundred of them |
| `ReportBridge.OrderedIffCalm` | debug_router_connector/src/multiplexer/daemon/DaemonReportServiceBridge.ts:30-83 | for every run, callbacks that report included: the reports are in order after every prefix iff no report comes while the status is forward and the queue is not empty |
| `ReportBridge.NoReentrantReportIsCalm` | debug_router_connector/src/multiplexer/daemon/DaemonReportServiceBridge.ts:30-83 | runs that report only outside the callbacks meet that condition |
| `ReportBridge.ClosedIsFinal` | debug_router_connector/src/multiplexer/daemon/DaemonReportServiceBridge.ts:30-88 | once closed nothing is sent, accepted or queued in any continuation |
| `ReportBridge.CloseEmpties` | debug_router_connector/src/multiplexer/daemon/DaemonReportServiceBridge.ts:85-88 | close empties the queue for good, whatever is called after it |
| `ReportBridge.ReportKeepsOrderIff` | debug_router_connector/src/multiplexer/daemon/DaemonReportServiceBridge.ts:30-50 | one report keeps the order iff it does not come while the status is forward and the queue is not empty |
| `ReportBridge.ReentrantReportOvertakes` | debug_router_connector/src/multiplexer/daemon/DaemonReportServiceBridge.ts:30-83 | a callback's report that arrives before an older queued one |
| `ReportBridge.QuietDrain` | debug_router_connector/src/multiplexer/daemon/DaemonReportServiceBridge.ts:68-83 | with quiet callbacks one drain delivers the whole queue in order to the current connector and ends |
| `ReportBridge.RunKeepsInv` | debug_router_connector/src/multiplexer/daemon/DaemonReportServiceBridge.ts:30-88 | the queue is exactly the newest reports, fates are true and the drain flag says whether a drain is running, over every run |
| `ReportBridge.DaemonReportServiceBridge.ReportEvent` | debug_router_connector/src/multiplexer/daemon/DaemonReportServiceBridge.ts:30-50 | whatever the callback does, fields and sends are those of a run of the step machine that ends in the calling frame |
| `ReportBridge.DaemonReportServiceBridge.UpdateStatus` | debug_router_connector/src/multiplexer/daemon/DaemonReportServiceBridge.ts:52-58 | the same for a status change |
| `ReportBridge.DaemonReportServiceBridge.Drain` | debug_router_connector/src/multiplexer/daemon/DaemonReportServiceBridge.ts:68-83 | the same for the drain loop, which ends for all callbacks |
| `ReportBridge.DaemonReportServiceBridge.ForwardReport` | debug_router_connector/src/multiplexer/daemon/DaemonReportServiceBridge.ts:60-66 | hands over exactly the given report once and comes back |
| `ReportBridge.DaemonReportServiceBridge.CloseBridge` | debug_router_connector/src/multiplexer/daemon/DaemonReportServiceBridge.ts:85-88 | performs the close step |
| `WebSocketFrames.RfcRoundTrip` | debug_router/native/net/websocket_task.cc:225-259 | the reference decoder of sections 5.2 and 5.3 of RFC 6455 undoes the reference encoder on every frame, whatever follows |
| `WebSocketFrames.SentDecodesIff` | debug_router/native/net/websocket_task.cc:225-259 | a standard peer reads one final masked text frame with exactly the data, in minimal form, iff the data is shorter than 2^32 octets |
| `WebSocketFrames.SentThenRest` | debug_router/native/net/websocket_task.cc:225-259 | consecutive sends are read back one by one |
| `WebSocketFrames.SendInternal` | debug_router/native/net/websocket_task.cc:225-259 | the prefix array and the data form that frame |
| `WebSocketFrames.ReadIsRfcIff` | debug_router/native/net/websocket_task.cc:494-556 | on every stream that starts with a complete frame `do_read` returns its payload and stops behind it iff the frame is final, unmasked, without RSV1 and shorter than 2^31 |
| `WebSocketFrames.ReadRecoversEncoded` | debug_router/native/net/websocket_task.cc:494-556 | the same for every frame a standard peer encodes |
| `WebSocketFrames.ReadRefuses` | debug_router/native/net/websocket_task.cc:513-533 | why a complete frame is refused, in order: it is a fragment, it is masked, its first reserved bit is set |
| `WebSocketFrames.ReadIncomplete` | debug_router/native/net/websocket_task.cc:505-555 | a supported frame cut short anywhere but inside its length is reported incomplete |
| `WebSocketFrames.Connection.DoRead` | debug_router/native/net/websocket_task.cc:494-556 | result and octets left are those of the read function, unchecked length octets included |
| `WebSocketFrames.Connection.ReadLength` | debug_router/native/net/websocket_task.cc:527-543 | the length is the C expression's value: low four of eight octets, sign-extended |
| `UrlCodec.DecodeUndoesEncode` | debug_router/native/core/util.cc:86-134 | whatever an encoder escapes and in whatever case, decoding gives the octets back |
| `UrlCodec.DecodedIsEncoded` | debug_router/native/core/util.cc:86-134 | every text that decodes and is not cut short is an encoding of its result |
| `UrlCodec.BrokenEscape` | debug_router/native/core/util.cc:94-128 | behind any encoding an escape cut short by the end is dropped, and one that is not hexadecimal makes the text malformed |
| `UrlCodec.DecodeURIComponent` | debug_router/native/core/util.cc:86-134 | the flag loop computes the reference decoding, empty for a malformed escape |
| `WebSocketUrl.HasControlChar` | debug_router/native/net/websocket_task.cc:45-53 | true iff some octet is at most 0x20 or 0x7f |
| `WebSocketUrl.ParsePort` | debug_router/native/net/websocket_task.cc:55-75 | accepts exactly the decimal texts of 1 to 65535, with their value, without integer overflow |
| `WebSocketUrl.ParseWebSocketUrl` | debug_router/native/net/websocket_task.cc:77-145 | computes the parse the grammar theorems are about |
| `WebSocketUrl.AcceptsGrammar` | debug_router/native/net/websocket_task.cc:77-145 | every URL of the grammar within the limits is accepted and taken apart into its parts |
| `WebSocketUrl.AcceptsOnlyGrammar` | debug_router/native/net/websocket_task.cc:77-145 | whatever is accepted is such a URL, read as the grammar says |
| `WebSocketUrl.DefaultsOf` | debug_router/native/net/websocket_task.cc:102-112 | no path asks for "/", a query alone for "/" and the query, and no port means 80 |
| `WebSocketUrl.ParseIff` | debug_router/native/net/websocket_task.cc:77-145 | the parse succeeds with a result iff some URL of the grammar is that text with that meaning |
| `WebSocketUrl.PrintThenParse` | debug_router/native/net/websocket_task.cc:77-145 | printing host, port and target and parsing gives the same three, also through percent-encoding |

## Left out

- Sockets, DNS, adb, hdc, usbmux, process spawning and timers: they are parameters (octets received, short reads, errors) or steps that may come at any time.
- Weak memory: relaxed atomics are treated as sequentially consistent.
- ServerState.Quiescence: the forced close of the current USB transport inside the update task is not a step of this module; `CoreConnection` has it as an OnClosed step.
- ServerState.RunKeepsInv, UsbClientCallbacks.RunKeepsInv: several threads interleave inside each function here, so every atomic operation is a step on a value and there is no object.
- JSON and UTF-8: payloads are octets, and the session filter is a predicate.
- `SetUSBStartPort`, `HandleSchema`, session handlers and message dispatch: not part of this model.
- CoreConnection.Core.Connect: `Connect`, `Disconnect` and the callbacks of the core are each one atomic step; races inside them and the telemetry they send are not modelled.
- UsbDispatch.ReceivePacked: the quit markers of other threads come at any points, not only after their stores to `stopping_`; clearing the queue at the end of Stop is not modelled.
- SocketServer.Server.AcceptClient: the Windows accept path and `InitSocket`'s port loop are not modelled.
- Mirrors.ReplayRebuildsMirrors: WebSocket client mirrors, the app-client events emitted beside each client event, and the forced public unregister operations are not modelled.
- ClientRegistry.RegistryIsConsistent: the port scan and the adapters appear only as the promise that a connected port is positive and that a controller removes its own ids or ids nobody has.
- Md5.Hasher.Finalize: `hexdigest` and big-endian hosts (where `byteSwap` acts) are not modelled.
- Md5.HashChunks: one update takes fewer than 2^32 octets, as its parameter type does.
- WebSocketFrames.Connection.DoRead: recv gives all it is asked for while the stream lasts; a 64-bit size type is assumed, and a left shift into the sign bit is taken as two's complement.
- WebSocketFrames.SendInternal: dropping a send after shutdown and partial sends are not modelled.
- ReportBridge.DaemonReportServiceBridge.ForwardReport: a callback that throws is a callback that returns, since the exception is caught and logged.
- The multiplexer's map of pending calls, the trace recorder's ring buffer, the configuration maps, daemon discovery through lock files, the language bindings and logging are not modelled.
