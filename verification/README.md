# Swarm driver verification

A Dafny model of the mesh network driver `MultiTcpServer` and of the swarm framer and deframer of the `DepA`
deployment, with proofs about it. `dafny verify dfyconfig.toml` checks everything.

## What is modelled

Every node runs a TCP server, a pool of ten TCP client sockets and a send port. The client sends its device ID after
connecting and the server answers with its own; from then on data flows from client to server only. A frame carries
its source and destination IDs, and the sender finds the destination by searching the outgoing buffer for the second
`ID` tag.

| file | content |
|---|---|
| `Types.dfy`, `Collections.dfy`, `Transitions.dfy` | integer widths and constants; searching and counting; runs of a step function |
| `Codec.dfy`, `Scan.dfy` | ID codec, frame layout, the search for the receiver |
| `SwarmFraming.dfy` | the framer with its serializer, and the deframer |
| `HostFile.dfy`, `Mask.dfy` | the round-robin host file and the connection mask |
| `ClientPool.dfy`, `ClientManager.dfy`, `ParseBuffer.dfy` | client sockets as values and as objects; what the parse buffer shows the endpoint check |
| `OpenTask.dfy`, `ClientRuns.dfy` | the connection loop and its convergence; connection task and sender interleaved step by step |
| `SendHandler.dfy`, `HandlerRuns.dfy` | the send port, and its place among those steps |
| `ServerPool.dfy`, `ServerManager.dfy`, `ReadTask.dfy` | server slots, counter, reader pool, accept loop, read loop |
| `ServerRuns.dfy`, `ServerRoom.dfy`, `ServerPaths.dfy`, `ReaderRuns.dfy` | accept task and readers interleaved step by step; when the server can still accept; runs that go wrong; the loops as written among the steps |
| `Hosts.dfy`, `Network.dfy`, `NetworkSafety.dfy`, `Delivery.dfy` | nodes with both sides, joined by FIFO connections; their invariant; end-to-end results |
| `Joining.dfy`, `Completion.dfy` | when connection attempts go through, with a reader for them or without |
| `Mesh.dfy`, `NetworkMesh.dfy`, `MeshLimits.dfy` | full meshes by device ID, of a node and of any nodes together; exactly when they can be reached |
| `AttendedMesh.dfy` | exactly when a mesh can be reached over which everything can arrive |
| `Arrival.dfy`, `Broadcast.dfy` | when a payload for one node or for all can arrive |
| `Ordering.dfy`, `Reordering.dfy` | when payloads are bound to come up in order; a run in which they do not |

Code that updates objects and arrays is written as classes and loops, each proved equal to a function on values. The
interleaved systems are built from the same functions, and `ClientRuns.IterationIsPath`, `HandlerRuns.HandlerIsPath`,
`ServerPaths.IterationIsPath` and `ReaderRuns.RoundGoes` show that the loops as written are among their schedules: the
steps get the answers of the call and no others, which leaves the task one outcome. What one call comes to is also
said without these functions, of bytes, ports, flags and counts (`ServerSockets.AcceptCounts`, `OpenTask.IterationAttempts`,
`SendHandler.StatusExact`, `SendHandler.CastByRow`, `ReadTask.UpTellsReceive` and the rows beside them). The
network is made of these systems: each node has the client side of `ClientRuns` and the server of `ServerRuns`. Runs are
sequences of steps; a result about runs holds for every sequence. On the client side a run goes up to the stop of the
connection task: the `closeAll` of `SocketOpenTask.cpp` lines 28 and 91 and of `MultiTcpServerComponentImpl.cpp` line 47 is
modelled as an operation (`ClientSockets.ClientManager.CloseAll`) and not as a step. The server's stop is a step.

## Assumptions

- The transport below the sockets (connect, accept, send, receive, select, thread join) is not part of this model. Each
  call returns any outcome, chosen anew each time, except that a closed socket neither receives nor sends. A send on an
  identified client socket does not close it by itself. Connections wait for a server in the order they were made.
  In particular a connect may succeed for any host string, also for one like `1.2.3` that is no dotted quad.
- A reader can be joined as soon as its final close is done. A reap pass that still finds the thread running in between
  is not a case of its own.
- Results on meshes suppose that the lines of the files fit the parse buffer (`ParseBuffer.LinesFit`).
- Manager operations are atomic, as the lock marks at `MultiTcpServerManager.cpp` lines 132 and 142 intend, and so is the
  stop, which sets the flag and closes all server sockets (`MTSTask.cpp` lines 43 and 44).
- One send port call is in progress per node at a time. `MultiTcpServerComponentImpl.cpp` lines 129 to 131 look the
  socket up again before closing it, which two concurrent calls could turn into a close of socket 0.
- The parameters of a reader are its own copy. `MTSTask.cpp` line 135 passes the address of a local variable.
- Each message is sent and received whole. A handshake receive is still limited to its buffer, and the proof shows that
  the limit is never felt.
- The layers below the swarm framer add a prefix and a suffix of fixed sizes, drop what is too short for a swarm frame,
  and never put `I`, `D` next to each other in the prefix.
- Mask lookups for IDs without one of the ten columns read the memory outside the array, whatever it holds. The
  interleaved systems assume of it only that the lookup for ID 0 does not find a 1 there (`SendHandler.ZeroRefused`).
- A row of the mask file that is longer than the line buffer overruns it; the model follows what the buffer itself holds.
- Every node's source ID is its device ID. Device IDs are nonzero and do not contain `I`, `D` side by side. Every node
  uses the ID protocol.

## Where the code differs from its documentation

- `MultiTcpServerComponentImpl.hpp` line 156 promises `SEND_RETRY` for a disconnected socket. The code overwrites it with
  `SEND_OK` and returns `SEND_RETRY` for no input (`SendHandler.StatusReturned`, `SendHandler.DisconnectedReturnsOk`).
- `README.md` of the repository says that the framer's destination starts as the node's own ID. It starts as the
  broadcast ID (`SwarmFraming.SwarmFramer.constructor`).
- `docs/sdd.md` presents `MAX_CLIENTS` as the number of clients served. Failed ID sends and missing pool entries use that
  number up for good, and the server can come to accept somebody again exactly as long as some of it is left
  (`ServerRoom.CanAcceptIff`, `ServerPaths.ServerCanStarve`, `ServerPaths.StrayReached`). With its pool entries used up a
  server accepts clients without ever giving them a reader (`ServerPaths.ExhaustionReached`).
- The endpoint check looks at eight raw characters of a parse buffer that is never cleared. It keeps endpoints unique in
  all runs exactly for the files in which nothing of a longer line shows behind a shorter host
  (`ClientRuns.UniqueInAllRunsIff`, `ClientRuns.AShortHostBehindALongOne`). The short host of the example file is no dotted
  quad; that something can be connected to under it is an assumption about the transport.
- `docs/sdd.md` line 11 says that the connection task connects to every entry of the host file unless another socket is
  connected to the same host. Hosts that agree in their first eight characters and in the port, such as `192.168.1.10:80`
  and `192.168.1.11:80`, count as the same, and the second never gets a socket (`ClientRuns.TwoHostsOneSocket`). Every line
  can get a socket of its own exactly if the file has ten such keys at most and lines with equal keys have equal endpoints
  (`ClientRuns.MeshReachableIff`); for this to be so in every reachable state the file has to be safe as well
  (`ClientRuns.AlwaysMeshIff`).
- The close a reader ends with never closes its own connection, which is closed by then; if it closes one at all, it is
  a later client's (`ServerRuns.FinalCloseHitsOthers`, `ServerPaths.FinalCloseCanHit`). The close of a reader that failed
  to receive (`MTSTask.cpp` line 213) can hit a later client's connection as well (`ServerRuns.FailedCloseHits`,
  `ServerPaths.FailedCloseCanHit`).
- Readers left behind by such closes can take messages of a later connection, which then come up in the wrong order
  (`Reordering.OrderCanBeLost`). A connection is bound to hand everything up in order exactly if it has done so far,
  nothing is held back behind what was handed up, and no two readers take from it, counting one about to be started
  (`Ordering.OrderKeptIff`).
- A buffer whose header check fails is given back twice (`SendHandler.BufferConserved`).

## Model

| member | source | states |
|---|---|---|
| `Codec.CodecInverse` | mesh_network-drivers/MultiTcpServer/MultiTcpClientSocket.cpp:51-94 | the four ID bytes, most significant first, and the 32-bit ID determine each other: decode and encode are inverse both ways |
| `Codec.EncodeKeepsOrder` | mesh_network-drivers/MultiTcpServer/MultiTcpClientSocket.cpp:51-60 | IDs compare as their bytes do from the first one on, so the first byte is the most significant |
| `Codec.HandshakeRoundTrip` | mesh_network-drivers/MultiTcpServer/MultiTcpServerSocket.cpp:107-158 | an ID frame received into any buffer of at least six bytes, whatever it held, parses back to the sender's ID |
| `Codec.AcceptsMoreThanIdFrames` | mesh_network-drivers/MultiTcpServer/MultiTcpServerSocket.cpp:123-129 | the handshake takes exactly the frames with at least one tag byte right, of which the ID frames are only those with both, and reads the ID from the four bytes behind them |
| `Codec.DeframeFrame` | DepA/SwarmDeframer/SwarmDeframer.cpp:57-74 | deframing a framed source, destination and payload gives back source and payload, for every payload |
| `Codec.FrameDeframe` | DepA/SwarmDeframer/SwarmDeframer.cpp:57-74 | every accepted buffer of twelve bytes or more is the frame of its own source, destination and payload |
| `Codec.FramingBijection` | DepA/SwarmFramer/SwarmFramer.cpp:83-120 | a buffer is the frame of (source, destination, payload) if and only if the deframer takes it and reads these three out of it |
| `RoutingScan.FindReceiver` | mesh_network-drivers/MultiTcpServer/MultiTcpServerComponentImpl.cpp:77-90 | the scan loop finds the big-endian word behind the second tag, or 1 after a single tag, or 0; states the highest offset it reads |
| `RoutingScan.Scan` | mesh_network-drivers/MultiTcpServer/MultiTcpServerComponentImpl.cpp:73-95 | receiver and header check as specified; the scan and the check stay inside the buffer if and only if the second tag has four bytes behind it or, without one, the buffer has two bytes and does not end in I |
| `RoutingScan.ReceiverByTags` | mesh_network-drivers/MultiTcpServer/MultiTcpServerComponentImpl.cpp:77-95 | a buffer without a tag has receiver 0, with a single one receiver 1, and otherwise the word behind the second one, most significant byte first; the header check fails exactly with fewer than two tags and neither tag byte at the start |
| `RoutingScan.ReceiverIgnoresMemory` | mesh_network-drivers/MultiTcpServer/MultiTcpServerComponentImpl.cpp:77-91 | while no read leaves the buffer, the bytes behind the buffer change neither the receiver nor the header check |
| `RoutingScan.ScanFindsDestination` | mesh_network-drivers/MultiTcpServer/MultiTcpServerComponentImpl.cpp:77-90 | the scan stops at the destination's tag if and only if neither the prefix nor the four source bytes contain I followed by D |
| `RoutingScan.RouteFramed` | mesh_network-drivers/MultiTcpServer/MultiTcpServerComponentImpl.cpp:73-95 | a frame behind any tag-free prefix, with any payload and suffix, is routed to its destination, passes the header check and is scanned inside the buffer |
| `RoutingScan.NumberedIdHasNoTag` | DepA/MultiNode.md:31-37 | the ten numbered node IDs never look like a tag, so they qualify as sources |
| `SwarmFraming.Serializer.Append` | DepA/SwarmFramer/SwarmFramer.cpp:97-113 | appends the bytes if they fit and otherwise refuses and changes nothing |
| `SwarmFraming.SwarmFramer.constructor` | DepA/SwarmFramer/SwarmFramer.cpp:25-31 | the destination starts as the broadcast ID, the source as whatever memory held |
| `SwarmFraming.SwarmFramer.SetSourceId` | DepA/SwarmFramer/SwarmFramer.cpp:60-67 | sets the source ID and nothing else |
| `SwarmFraming.SwarmFramer.SetDestId` | DepA/SwarmFramer/SwarmFramer.cpp:125-135 | sets the destination ID and nothing else |
| `SwarmFraming.SwarmFramer.WriteId` | DepA/SwarmFramer/SwarmFramer.cpp:90-95 | overwrites the ID bytes of a header entry in place so that the entry is the ID frame |
| `SwarmFraming.SwarmFramer.FrameData` | DepA/SwarmFramer/SwarmFramer.cpp:83-120 | emits the frame of (sourceId, destId, data) if the allocated buffer holds it and fails its assertion otherwise; beyond the 32-bit size the frame is cut at the wrapped size |
| `SwarmFraming.FramedIn` | DepA/SwarmDeframer/SwarmDeframer.cpp:51-77 | reports the source and emits the payload exactly when the header's tags are there, and always gives the buffer back once, last; the size is a 32-bit difference, so for less than twelve bytes the payload wraps around in memory |
| `HostFile.Reader.GetEntry` | mesh_network-drivers/MultiTcpServer/MultiTcpServerComponentImpl.cpp:204-230 | returns the line at the cursor, rewinding at the end of the file; an empty file gives no line |
| `HostFile.RoundRobin` | mesh_network-drivers/MultiTcpServer/MultiTcpServerComponentImpl.cpp:204-230 | the k-th read from cursor c returns line (c + k) mod n |
| `HostFile.EveryLineOnce` | mesh_network-drivers/MultiTcpServer/MultiTcpServerComponentImpl.cpp:211-223 | any n consecutive reads return every line, no line twice |
| `ConnectionMask.Mask.constructor` | mesh_network-drivers/MultiTcpServer/MultiTcpServerComponentImpl.cpp:257-264 | before a file was read, exactly the numbered IDs other than the first are allowed |
| `ConnectionMask.Mask.Update` | mesh_network-drivers/MultiTcpServer/MultiTcpServerComponentImpl.cpp:233-254 | the ten entries become the digits of what the line buffer holds after the node's row was asked for, for rows of any length and for a file without rows too; without a file, or for a negative row number and an uninitialised count of 0, they stay |
| `ConnectionMask.Mask.Check` | mesh_network-drivers/MultiTcpServer/MultiTcpServerComponentImpl.cpp:267-276 | rereads the file and answers whether the byte at the ID's 32-bit offset is 1; for IDs without a column that byte lies outside the mask |
| `ConnectionMask.CheckReadsOwnRow` | mesh_network-drivers/MultiTcpServer/MultiTcpServerComponentImpl.cpp:242-251 | with a file that has the node's row, long enough to reach the ID's column or end right before it, an ID is allowed if and only if the row has the digit 1 there |
| `ConnectionMask.CheckReadsLastToReach` | mesh_network-drivers/MultiTcpServer/MultiTcpServerComponentImpl.cpp:241-251 | rows of any length: the entry of a column is the character that the last row to reach it, of the node's own and those above it, has there, less the character 0; an ID is allowed if and only if that is a 1 and the row does not end there |
| `ConnectionMask.StackDecides` | mesh_network-drivers/MultiTcpServer/MultiTcpServerComponentImpl.cpp:238-251 | where no row reaches, or none is read because the row number is negative, what the stack held decides |
| `ConnectionMask.NoFileKeepsMask` | mesh_network-drivers/MultiTcpServer/MultiTcpServerComponentImpl.cpp:233-276 | without a file, or a row read and the uninitialised count 0, the mask loaded before stays and decides |
| `ConnectionMask.OthersReadBeyond` | mesh_network-drivers/MultiTcpServer/MultiTcpServerComponentImpl.cpp:267-276 | an ID without a column is looked up behind the mask, at its 32-bit distance from the first column's ID |
| `ConnectionMask.ShortFileUsesLastRow` | mesh_network-drivers/MultiTcpServer/MultiTcpServerComponentImpl.cpp:241-251 | a file too short for the node is read as if its last row were the node's; a file without rows makes the mask from what the stack held |
| `ClientPool.ComparisonTrustedIff` | mesh_network-drivers/MultiTcpServer/MultiTcpClientSocket.cpp:109-124 | comparing a parsed host with a socket means equality of (first 8 characters, port) for every earlier buffer content if and only if the host has seven characters or more |
| `ClientPool.MatchesRaw` | mesh_network-drivers/MultiTcpServer/MultiTcpClientSocket.cpp:109-124 | a socket matches the raw buffer if and only if its port is the same and the buffer starts with the first eight characters of its host, with NULs behind a shorter one up to the eighth |
| `ClientPool.SameKeyIff` | mesh_network-drivers/MultiTcpServer/MultiTcpClientSocket.cpp:109-124 | two hosts count as one endpoint if and only if their first eight characters and their ports agree |
| `ClientPool.PortCut` | mesh_network-drivers/MultiTcpServer/SocketOpenTask.cpp:53-62 | ports below 2^16 are taken as they are, and every port up to a multiple of 2^16 |
| `ParseBuffer.SafeIffReadsClean` | mesh_network-drivers/MultiTcpServer/SocketOpenTask.cpp:43-57 | reading the file round and round from the cleared buffer, every reading of every endpoint shows the comparison its own host and nothing older if and only if the file is safe: behind each short host every place the comparison looks at was last reached, going back round the file, by a line that ends exactly there, or by none |
| `ParseBuffer.LongHostsReadClean` | mesh_network-drivers/MultiTcpServer/MultiTcpClientSocket.cpp:109-117 | hosts of seven characters or more read clean whatever the buffer held |
| `ParseBuffer.ParsedExact` | mesh_network-drivers/MultiTcpServer/SocketOpenTask.cpp:53-56 | a line leaves its host, or the part read of it, with a NUL behind it over the front of the buffer and nothing else; when nothing is read the buffer stays |
| `ClientPool.WrittenIsCString` | mesh_network-drivers/MultiTcpServer/SocketOpenTask.cpp:53-62 | the host stored in a socket is the host parsed, whatever the parse buffer held before |
| `ClientPool.LookUpAgrees` | mesh_network-drivers/MultiTcpServer/TcpClientManager.cpp:73-93 | when closed sockets carry no ID, an ID that is connected is looked up to an open socket of that ID although the lookup ignores the open flag |
| `ClientPool.LookUpFirst` | mesh_network-drivers/MultiTcpServer/TcpClientManager.cpp:73-82 | the lookup ends at the first socket with the ID, open or not, and at socket 0 exactly if none has it or that is the first |
| `ClientPool.FreeSlotExists` | mesh_network-drivers/MultiTcpServer/TcpClientManager.cpp:54-63 | while an endpoint out of at most ten is not connected, some socket is free (pigeonhole over the ten sockets) |
| `ClientSockets.ClientSocket.SetHost` | mesh_network-drivers/MultiTcpServer/MultiTcpClientSocket.cpp:41-44 | stores the characters before the first NUL and the port, and touches neither the open flag nor the ID |
| `ClientSockets.ClientSocket.Open` | mesh_network-drivers/MultiTcpServer/SocketOpenTask.cpp:64 | the socket is open afterwards exactly when the connect succeeded |
| `ClientSockets.ClientSocket.Close` | mesh_network-drivers/MultiTcpServer/MultiTcpClientSocket.cpp:104-107 | closes the transport and forgets the ID |
| `ClientSockets.ClientSocket.SendClientId` | mesh_network-drivers/MultiTcpServer/MultiTcpClientSocket.cpp:46-65 | puts the ID frame on the wire; a failed send closes the transport and leaves the ID |
| `ClientSockets.ClientSocket.RecvServerId` | mesh_network-drivers/MultiTcpServer/MultiTcpClientSocket.cpp:67-98 | stores the parsed ID exactly when the receive succeeded and the frame was taken; otherwise closes the transport |
| `ClientSockets.ClientSocket.CompareHost` | mesh_network-drivers/MultiTcpServer/MultiTcpClientSocket.cpp:109-124 | compares eight raw characters of the buffer with the zero-padded host, and the port |
| `ClientSockets.ClientManager.Close` | mesh_network-drivers/MultiTcpServer/TcpClientManager.cpp:49-52 | closes one socket and leaves the others alone |
| `ClientSockets.ClientManager.CloseAll` | mesh_network-drivers/MultiTcpServer/TcpClientManager.cpp:44-48 | closes every socket and clears every ID |
| `ClientSockets.ClientManager.GetFreeSocketIndex` | mesh_network-drivers/MultiTcpServer/TcpClientManager.cpp:54-63 | the first socket that is not open, or -1 when all are |
| `ClientSockets.ClientManager.GetSocketHandlerById` | mesh_network-drivers/MultiTcpServer/TcpClientManager.cpp:73-82 | fails its assertion for ID 0; otherwise the first socket with the ID, open or not, or socket 0 |
| `ClientSockets.ClientManager.CheckConnectedToId` | mesh_network-drivers/MultiTcpServer/TcpClientManager.cpp:84-93 | true exactly when some open socket has the ID |
| `ClientSockets.ClientManager.CheckConnectedToHost` | mesh_network-drivers/MultiTcpServer/TcpClientManager.cpp:95-107 | true exactly when some open socket matches the raw host buffer and port |
| `OpenTask.RunIteration` | mesh_network-drivers/MultiTcpServer/SocketOpenTask.cpp:50-90 | one loop body takes pool, parse buffer and cursor to the specified next state, reports connected exactly after a whole handshake, and sends the ID frame exactly when the connect succeeded |
| `OpenTask.Attempt` | mesh_network-drivers/MultiTcpServer/SocketOpenTask.cpp:62-84 | the socket ends open with the server's ID if connect, send and receive all succeed, and closed without an ID otherwise |
| `OpenTask.IterationAttempts` | mesh_network-drivers/MultiTcpServer/SocketOpenTask.cpp:50-84 | if no open socket looks connected to the line, which is said of characters and port numbers, the first free socket gets the line's host and port and no other changes; it is open with the four ID bytes of the answer if and only if connect and send succeed and the answer has a tag byte right, and closed without an ID otherwise |
| `OpenTask.IterationPasses` | mesh_network-drivers/MultiTcpServer/SocketOpenTask.cpp:50-84 | a malformed line, one that some socket looks connected to, and any line without a free socket change no socket |
| `OpenTask.IterationKeepsPool` | mesh_network-drivers/MultiTcpServer/SocketOpenTask.cpp:57-84 | whatever the network answers, an iteration opens no (first 8 characters, port) twice, leaves no ID on a closed socket, opens only whole endpoints of the file, closes none, and goes on reading clean |
| `OpenTask.IterationConnects` | mesh_network-drivers/MultiTcpServer/SocketOpenTask.cpp:57-84 | with at most ten keys (first 8 characters, port) an iteration whose attempt succeeds adds to the endpoints connected exactly its line's host and port, unless a line with the same key is connected, and then adds nothing; a port below 2^16 is connected as the number it is |
| `OpenTask.SeriesConnects` | mesh_network-drivers/MultiTcpServer/SocketOpenTask.cpp:50-90 | in a series of successful iterations no endpoint is disconnected, and at the end some line with the key of the i-th line read is connected |
| `OpenTask.MeshConverges` | mesh_network-drivers/MultiTcpServer/SocketOpenTask.cpp:50-90 | from any pool in order and any cursor, as many successful iterations as the file has lines give every line exactly one open socket on its own host and port, if lines with equal keys have equal endpoints and there are at most ten keys; for ports below 2^16 that socket has the very host and number of the line |
| `OpenTask.MeshOnPorts` | mesh_network-drivers/MultiTcpServer/SocketOpenTask.cpp:50-66 | a full mesh is the same as one open socket for every line that alone has the line's host and, up to multiples of 2^16, its port |
| `OpenTask.FullMeshStays` | mesh_network-drivers/MultiTcpServer/SocketOpenTask.cpp:57-61 | once every line has its socket, an iteration changes no socket whatever the network answers |
| `OpenTask.MeshTellsApart` | mesh_network-drivers/MultiTcpServer/TcpClientManager.cpp:54-71 | a pool in which open sockets with equal keys are on equal endpoints, possibly twice on one, has a socket for every line only if the file has at most ten keys and its equal keys mean equal endpoints |
| `OpenTask.DirtyLineConnectsAgain` | mesh_network-drivers/MultiTcpServer/MultiTcpClientSocket.cpp:109-117 | an iteration that meets older characters behind a short host connects a second socket to an endpoint that is connected already |
| `ClientRuns.StepKeepsInv` | mesh_network-drivers/MultiTcpServer/SocketOpenTask.cpp:50-90 | for every file, each atomic step of the connection task or of the sender keeps that closed sockets carry no ID, and what both program counters say about the socket in hand |
| `ClientRuns.ReachableInv` | mesh_network-drivers/MultiTcpServer/SocketOpenTask.cpp:50-90 | for every file this holds in every state of every interleaving |
| `ClientRuns.StepKeepsFile` | mesh_network-drivers/MultiTcpServer/SocketOpenTask.cpp:43-66 | for every file, each step keeps that open sockets are on whole endpoints of the file, that no two of them with one key are on different endpoints, and that the parse buffer reads as the line in hand |
| `ClientRuns.ReachableFile` | mesh_network-drivers/MultiTcpServer/SocketOpenTask.cpp:43-66 | for every file, in every reachable state open sockets are on endpoints of the file and equal keys mean equal endpoints among them |
| `ClientRuns.StepKeepsSafe` | mesh_network-drivers/MultiTcpServer/SocketOpenTask.cpp:43-61 | each step keeps that the rest of the file reads clean and no two open sockets have one key |
| `ClientRuns.ReachableSafe` | mesh_network-drivers/MultiTcpServer/SocketOpenTask.cpp:43-61 | with a safe file the parse buffer reads clean, and endpoints are unique, in every reachable state |
| `ClientRuns.NeverTwiceOnOneEndpoint` | mesh_network-drivers/MultiTcpServer/SocketOpenTask.cpp:57-66 | with a safe file, in every reachable state no two open sockets agree on (first 8 characters, port) |
| `ClientRuns.UniqueInAllRunsIff` | mesh_network-drivers/MultiTcpServer/MultiTcpClientSocket.cpp:109-124 | endpoints are unique in every reachable state if and only if the file is safe |
| `ClientRuns.AShortHostBehindALongOne` | mesh_network-drivers/MultiTcpServer/SocketOpenTask.cpp:43-66 | gives a two-line file and a run of it after which two sockets are on one endpoint |
| `ClientRuns.SenderHitsItsReceiver` | mesh_network-drivers/MultiTcpServer/MultiTcpServerComponentImpl.cpp:119-131 | in every reachable state the lookup before a send or an EPIPE close ends at an open socket with the receiver's ID, never at the fallback; a broadcast sends only on open, identified sockets |
| `ClientRuns.IterationIsPath` | mesh_network-drivers/MultiTcpServer/SocketOpenTask.cpp:50-90 | behind its fetch the connection task, on the answers of the iteration and no others, comes back to the top of its loop with exactly what the loop body leaves |
| `ClientRuns.EveryRunCanConverge` | mesh_network-drivers/MultiTcpServer/SocketOpenTask.cpp:50-90 | for a safe file, from every reachable state the attempt in progress can end, and one pass over the file with successful connects then leads to the full mesh, every line with one socket on its own host and port, if at most ten keys tell the endpoints apart |
| `ClientRuns.MeshReachableIff` | mesh_network-drivers/MultiTcpServer/SocketOpenTask.cpp:50-90 | for every file, from every reachable state in which no key is open twice, a state in which every line has its own socket can be reached if and only if there are at most ten keys and lines with equal keys have equal endpoints |
| `ClientRuns.AlwaysMeshIff` | mesh_network-drivers/MultiTcpServer/SocketOpenTask.cpp:50-90 | such a state can be reached from every reachable state if and only if the file is safe, there are at most ten keys, and lines with equal keys have equal endpoints |
| `ClientRuns.TwoHostsOneSocket` | mesh_network-drivers/MultiTcpServer/MultiTcpClientSocket.cpp:109-124 | gives a safe file of two hosts with one key and a run that connects the first; in no reachable state are both connected |
| `SendHandler.Handle` | mesh_network-drivers/MultiTcpServer/MultiTcpServerComponentImpl.cpp:62-148 | the whole call: sends and buffer returns in order, result, sockets and mask afterwards; for receiver 0 the call can fail the assertion of the socket lookup |
| `SendHandler.Broadcast` | mesh_network-drivers/MultiTcpServer/MultiTcpServerComponentImpl.cpp:102-115 | sends on the eligible slots in index order, gives the buffer back, and reports the status of the last eligible send or of the uninitialised variable; what is eligible is said by CastByRow and CastByMask |
| `SendHandler.Unicast` | mesh_network-drivers/MultiTcpServer/MultiTcpServerComponentImpl.cpp:117-145 | sends once on the looked-up socket if mask and connection allow it; a disconnected or retried send still reports SEND_OK; EPIPE closes that socket; StatusExact and PoolExact say what is returned and closed |
| `SendHandler.StatusExact` | mesh_network-drivers/MultiTcpServer/MultiTcpServerComponentImpl.cpp:117-147 | for every receiver but the broadcast ID, SEND_OK is returned if and only if the receiver is not 0, the mask lets it through, an open socket carries its ID, and the send on that socket succeeded or met a disconnected or interrupted one; the assertion fails exactly for a receiver 0 that is let through and connected; all else is SEND_ERROR |
| `SendHandler.FramedStatus` | mesh_network-drivers/MultiTcpServer/MultiTcpServerComponentImpl.cpp:73-147 | the same for a framed buffer and its destination |
| `SendHandler.PoolExact` | mesh_network-drivers/MultiTcpServer/MultiTcpServerComponentImpl.cpp:119-133 | a call closes the socket of its receiver, and takes its ID, if and only if the send on it failed otherwise than by a disconnect or an interruption and left EPIPE; it leaves every other socket as it was |
| `SendHandler.StatusReturned` | mesh_network-drivers/MultiTcpServer/MultiTcpServerComponentImpl.cpp:125-134 | SEND_RETRY is never returned; for one node SEND_OK means that the send succeeded exactly when the socket was neither disconnected nor interrupted |
| `SendHandler.BroadcastStatus` | mesh_network-drivers/MultiTcpServer/MultiTcpServerComponentImpl.cpp:102-115 | a broadcast returns SEND_OK if and only if the send on its last eligible slot succeeded, whatever became of the others; without one the uninitialised status decides |
| `SendHandler.DisconnectedReturnsOk` | mesh_network-drivers/MultiTcpServer/MultiTcpServerComponentImpl.cpp:125-134 | gives a call whose send meets a disconnected socket and that returns SEND_OK |
| `SendHandler.TargetsExact` | mesh_network-drivers/MultiTcpServer/MultiTcpServerComponentImpl.cpp:103-107 | a slot is a broadcast target if and only if it is open and the mask, as reread at that moment, allows its ID; targets are in increasing order |
| `SendHandler.BroadcastExact` | mesh_network-drivers/MultiTcpServer/MultiTcpServerComponentImpl.cpp:102-115 | the buffer is sent exactly once on each eligible slot, in index order, and on no other |
| `SendHandler.CastByRow` | mesh_network-drivers/MultiTcpServer/MultiTcpServerComponentImpl.cpp:102-115 | a framed broadcast goes out on a slot if and only if the slot is open and the node's row, in the mask file as the latest look found it, has the digit 1 in the column of the slot's ID |
| `SendHandler.CastByMask` | mesh_network-drivers/MultiTcpServer/MultiTcpServerComponentImpl.cpp:102-115 | without a mask file it goes out on a slot if and only if the slot is open and the entry in memory is 1 |
| `SendHandler.CastInOrder` | mesh_network-drivers/MultiTcpServer/MultiTcpServerComponentImpl.cpp:102-109 | a framed broadcast sends the whole buffer on increasing slots, once on each at most, and then gives it back |
| `SendHandler.CastStatus` | mesh_network-drivers/MultiTcpServer/MultiTcpServerComponentImpl.cpp:110-113 | it returns SEND_OK if and only if the last of these sends succeeded; without one the uninitialised status decides |
| `SendHandler.MaskLeft` | mesh_network-drivers/MultiTcpServer/MultiTcpServerComponentImpl.cpp:103-107 | during a broadcast the mask in memory is what the latest look that found the node's row left, or what it was before the call |
| `SendHandler.UnicastExact` | mesh_network-drivers/MultiTcpServer/MultiTcpServerComponentImpl.cpp:117-145 | a framed buffer for one node goes out once, whole, on an open socket of that node if the mask allows it and it is connected, and otherwise not at all; destination 0 fails the assertion instead |
| `SendHandler.BufferConserved` | mesh_network-drivers/MultiTcpServer/MultiTcpServerComponentImpl.cpp:91-147 | unless an assertion stops the call, the buffer is given back exactly once, after its last use, if and only if the header check passes, and otherwise once before anything else and once at the end; a call that an assertion stops sends nothing |
| `SendHandler.WithoutProtocolNothingIsSent` | mesh_network-drivers/MultiTcpServer/MultiTcpServerComponentImpl.cpp:69-73 | with the ID protocol off nothing is ever sent, whatever the mask lookup for ID 0 reads |
| `HandlerRuns.HandlerIsPath` | mesh_network-drivers/MultiTcpServer/MultiTcpServerComponentImpl.cpp:62-148 | once it has found its receiver an undisturbed call in which the mask refuses ID 0, on the answers of that call's mask and transport and no others, comes to its end with the same sends in the same order and the same sockets afterwards |
| `ServerPool.BoundKept` | mesh_network-drivers/MultiTcpServer/MTSTask.cpp:127-155 | starting a reader and reaping an entry keep 0 <= taskCount <= started entries, whatever join status is carried over |
| `ServerPool.FullCountMeansAllStarted` | mesh_network-drivers/MultiTcpServer/MTSTask.cpp:99 | taskCount reaches MAX_TASKS only when every pool entry is started |
| `ServerPool.ReapExact` | mesh_network-drivers/MultiTcpServer/MTSTask.cpp:147-155 | a reap pass leaves started exactly the started entries whose threads still run |
| `ServerPool.ReapCounts` | mesh_network-drivers/MultiTcpServer/MTSTask.cpp:147-155 | a pass takes off the counter, down to zero at most, one for each entry whose latest started predecessor, itself included, has ended, or that has none while the join status from before the pass is zero |
| `ServerPool.ReapUndercounts` | mesh_network-drivers/MultiTcpServer/MTSTask.cpp:148-154 | a pass that joins the last started entry leaves the counter below the number of started entries |
| `ServerSockets.ServerSocket.Open` | mesh_network-drivers/MultiTcpServer/MultiTcpServerSocket.cpp:79-89 | the socket is open afterwards exactly when the accept succeeded |
| `ServerSockets.ServerSocket.RecvClientId` | mesh_network-drivers/MultiTcpServer/MultiTcpServerSocket.cpp:107-138 | stores the parsed ID exactly when the receive succeeded and the frame was taken; otherwise closes the transport |
| `ServerSockets.ServerSocket.SendServerId` | mesh_network-drivers/MultiTcpServer/MultiTcpServerSocket.cpp:140-158 | puts the ID frame on the wire; a failed send closes the transport only |
| `ServerSockets.ServerSocket.Close` | mesh_network-drivers/MultiTcpServer/MultiTcpServerSocket.cpp:160-163 | closes the transport and forgets the ID |
| `ServerSockets.ServerManager.Open` | mesh_network-drivers/MultiTcpServer/MultiTcpServerManager.cpp:102-124 | on activity tries the first closed socket and counts it if the accept succeeded; the caller's index moves exactly when a socket was tried |
| `ServerSockets.ServerManager.Close` | mesh_network-drivers/MultiTcpServer/MultiTcpServerManager.cpp:141-148 | closes one socket and lowers the counter, not below zero |
| `ServerSockets.ServerManager.CloseAll` | mesh_network-drivers/MultiTcpServer/MultiTcpServerManager.cpp:131-139 | closes every socket and resets the counter |
| `ServerSockets.AcceptTask.RunIteration` | mesh_network-drivers/MultiTcpServer/MTSTask.cpp:95-158 | one accept loop body takes sockets, counter, pool flags and task counter to the specified next state and says on which slot a reader was started |
| `ServerSockets.AcceptCounts` | mesh_network-drivers/MultiTcpServer/MTSTask.cpp:99-123 | a client that is accepted raises the counter by one unless its ID does not come in; if the ID cannot be answered the slot is closed, but the counter and the four ID bytes stay; no other slot changes |
| `ServerSockets.AcceptStartsReader` | mesh_network-drivers/MultiTcpServer/MTSTask.cpp:126-141 | exactly the clients left with an open slot get a reader, on the first entry not started and as long as there is one, and raise the task counter by one |
| `ServerSockets.NobodyAccepted` | mesh_network-drivers/MultiTcpServer/MTSTask.cpp:95-158 | an iteration that accepts nobody changes no slot and not the counter; it reaps exactly if the guard failed |
| `ServerSockets.AcceptTask.Handshake` | mesh_network-drivers/MultiTcpServer/MTSTask.cpp:113-123 | a failed ID receive closes the slot and lowers the counter; a failed ID send only closes the transport |
| `ServerSockets.AcceptTask.StartReader` | mesh_network-drivers/MultiTcpServer/MTSTask.cpp:126-141 | starts a reader on the first unstarted entry and counts it; with none the slot stays open and unread |
| `ServerSockets.AcceptTask.ReapPass` | mesh_network-drivers/MultiTcpServer/MTSTask.cpp:147-155 | the reap loop, in place, equals the specified pass |
| `ServerSockets.AcceptTask.ShutDown` | mesh_network-drivers/MultiTcpServer/MTSTask.cpp:160-172 | the shutdown sequence is one more reap pass and closes all sockets |
| `ServerRuns.StepKeepsInv` | mesh_network-drivers/MultiTcpServer/MTSTask.cpp:95-224 | each atomic step of the accept task, a reader or the stop keeps the books and the shape of the pool |
| `ServerRuns.ReachableInv` | mesh_network-drivers/MultiTcpServer/MTSTask.cpp:95-224 | the invariant holds in every state of every interleaving |
| `ServerRuns.ExactAccounting` | mesh_network-drivers/MultiTcpServer/MultiTcpServerManager.cpp:141-148 | before the stop the counter is the live readers plus the accept in hand plus failed ID sends plus accepts without a pool entry, in every interleaving, and every close lowers it by exactly one |
| `ServerRuns.OpenWithinCount` | mesh_network-drivers/MultiTcpServer/MTSTask.cpp:213-223 | before the stop open slots <= counter <= MAX_CLIENTS, also when a slot is reopened between a reader's two closes |
| `ServerRuns.AcceptFindsSlot` | mesh_network-drivers/MultiTcpServer/MultiTcpServerManager.cpp:106-115 | whenever the accept guard has passed, the scan finds a closed slot |
| `ServerRuns.TaskCountBounded` | mesh_network-drivers/MultiTcpServer/MTSTask.cpp:99-170 | in every run, shutdown included, taskCount <= started entries <= MAX_TASKS, the guard blocks only when all are started, and live readers sit in started entries |
| `ServerRuns.EndedIsClosed` | mesh_network-drivers/MultiTcpServer/MTSTask.cpp:158-172 | in every run, once the accept task has ended, all server sockets are closed, whatever was accepted after the stop, and the counter is zero |
| `ServerRuns.FinalCloseHitsOthers` | mesh_network-drivers/MultiTcpServer/MTSTask.cpp:213-223 | before the stop a reader's final close never closes the connection it was started for; if its slot is open, the close hits a connection accepted later |
| `ServerRuns.FailedCloseHits` | mesh_network-drivers/MultiTcpServer/MTSTask.cpp:211-214 | before the stop the close of a reader that failed to receive closes whatever its slot is on, its own connection or one accepted later, and counts nothing off |
| `ServerRoom.CanAcceptIff` | mesh_network-drivers/MultiTcpServer/MTSTask.cpp:99-158 | before the stop the server can still come to accept somebody if and only if the lost places are fewer than MAX_CLIENTS, counting an accept in hand that is bound to be lost because no pool entry is left or its socket was closed under it |
| `ServerRoom.LostPlacesStarve` | mesh_network-drivers/MultiTcpServer/MTSTask.cpp:121 | once MAX_CLIENTS places are lost the guard never passes again before the stop, and no reader is alive |
| `ServerRoom.ServerRecovers` | mesh_network-drivers/MultiTcpServer/MTSTask.cpp:145-157 | without anything from a client the server can get to the top of its loop with no reader alive and a counter of exactly its lost places |
| `ServerRoom.ServerRenews` | mesh_network-drivers/MultiTcpServer/MTSTask.cpp:145-158 | without anything from a client, a server that has places left and is not exhausted gets to the top of its loop with all connections as they were, having lost none, with a pool entry for the next client or a live reader and a second place left; exhausted means that all pool entries are started, their readers have ended, and the counter keeps the accept task from looking at them |
| `ServerPaths.AcceptsCanBeLost` | mesh_network-drivers/MultiTcpServer/MTSTask.cpp:113-123 | for every n <= MAX_CLIENTS a run loses n accepts and has all sockets closed, no reader alive and the counter at n |
| `ServerPaths.ServerCanStarve` | mesh_network-drivers/MultiTcpServer/MTSTask.cpp:99-123 | there is a reachable state with nothing open and nobody reading from which no run accepts anyone before the stop |
| `ServerPaths.StrayReached` | mesh_network-drivers/MultiTcpServer/MTSTask.cpp:126-155 | a run in which a client is accepted, identified and answered and nobody reads its slot: all pool entries are started while the task counter says fifteen |
| `ServerPaths.ExhaustionReached` | mesh_network-drivers/MultiTcpServer/MTSTask.cpp:126-155 | a run to an exhausted server, which accepts on although nobody will ever get a reader, with all but two places lost |
| `ServerPaths.FinalCloseCanHit` | mesh_network-drivers/MultiTcpServer/MTSTask.cpp:213-223 | a run in which a reader's final close closes the connection of a later client whose own reader is up |
| `ServerPaths.FailedCloseCanHit` | mesh_network-drivers/MultiTcpServer/MTSTask.cpp:211-214 | a run in which the close of a reader that failed to receive closes the connection of a later client whose own reader is up |
| `ServerPaths.IterationIsPath` | mesh_network-drivers/MultiTcpServer/MTSTask.cpp:95-158 | behind its guard the accept task, on the answers of the iteration and no others, comes to the top of its loop with the sockets, books and readers the loop body leaves; it has lost the accept if and only if a client was accepted, its ID came in, and it could not be answered, and has left the slot unread if and only if the handshake went through and every entry was started |
| `ServerPaths.ShutDownIsPath` | mesh_network-drivers/MultiTcpServer/MTSTask.cpp:160-172 | undisturbed, the shutdown sequence joins exactly the readers that have finished, as one more reap pass, and closes all sockets |
| `ReadTask.RunRound` | mesh_network-drivers/MultiTcpServer/MTSTask.cpp:186-221 | one round takes, hands up and closes as specified and ends the loop exactly when specified |
| `ReadTask.Read` | mesh_network-drivers/MultiTcpServer/MTSTask.cpp:175-224 | the whole reader: the log of its rounds, and the final close exactly once, when it ends; the buffer of every round goes up with the status and size of that round's receive |
| `ReadTask.BuffersConserved` | mesh_network-drivers/MultiTcpServer/MTSTask.cpp:193-220 | over every run each buffer taken is handed up exactly once, after it was taken, in order |
| `ReadTask.UpTellsReceive` | mesh_network-drivers/MultiTcpServer/MTSTask.cpp:193-220 | the buffer of a round goes up with a good status if and only if its receive succeeded, with the number of bytes received if it succeeded or was interrupted, with its whole capacity if it failed, and with size 0 if it could not be allocated; the transport is closed before that if and only if the receive failed |
| `ReadTask.ClosesOnlyFailed` | mesh_network-drivers/MultiTcpServer/MTSTask.cpp:211-219 | every close of the transport stands between taking a buffer and handing that buffer up with a bad status |
| `ReaderRuns.ReaderIsPath` | mesh_network-drivers/MultiTcpServer/MTSTask.cpp:186-223 | an undisturbed reader, up to the round that ends it, is a schedule of the reader's atomic steps that takes, hands up and closes in the order of the read loop's log |
| `ReaderRuns.RoundGoes` | mesh_network-drivers/MultiTcpServer/MTSTask.cpp:186-223 | an undisturbed round, on its own answers and no others, is a schedule of the reader's atomic steps that does what the round's log says, with the status that goes up |
| `ReaderRuns.ClosedBetweenGoes` | mesh_network-drivers/MultiTcpServer/MTSTask.cpp:187-192 | so is the rest of a round whose slot was closed between the two looks |
| `NetworkSafety.StepKeepsInv` | mesh_network-drivers/MultiTcpServer/MTSTask.cpp:95-224 | every step of any node's connection task, sender, accept task or readers keeps the network invariant |
| `NetworkSafety.ReachableInv` | mesh_network-drivers/MultiTcpServer/MTSTask.cpp:95-224 | the network invariant holds in every state of every run |
| `NetworkSafety.IdTakenKeepsConn` | mesh_network-drivers/MultiTcpServer/MultiTcpServerSocket.cpp:107-138 | the handshake receive meets the client's whole ID frame and nothing else, so it records the client's ID and cuts no message |
| `NetworkSafety.HandleSenders` | mesh_network-drivers/MultiTcpServer/MultiTcpServerComponentImpl.cpp:73-95 | the order just taken is the one in the sender's buffer, addressed to the receiver the scan finds, and on no stream yet |
| `NetworkSafety.DataAppended` | mesh_network-drivers/MultiTcpServer/MultiTcpServerComponentImpl.cpp:121 | a stream stays in order when an identified slot's connection gets an order for its node or for everyone |
| `Hosts.TakeStep` | mesh_network-drivers/MultiTcpServer/MTSTask.cpp:209 | a reader that receives from the connection its slot is on, its own or not, keeps the account of what every reader holds |
| `Hosts.HandOverStep` | mesh_network-drivers/MultiTcpServer/MTSTask.cpp:219 | a reader that hands its message up keeps that account: no message is held twice or handed up and still held |
| `EndToEnd.HandshakeAgreement` | mesh_network-drivers/MultiTcpServer/SocketOpenTask.cpp:64-76 | in every run a client slot with an ID is open on a connection to the node that listens at the slot's endpoint, the ID is exactly that node's, and the server had recorded the client's ID on it |
| `EndToEnd.OpenMeansIdentified` | mesh_network-drivers/MultiTcpServer/SocketOpenTask.cpp:66-84 | between attempts every open client slot carries the ID of the node that listens at its endpoint |
| `EndToEnd.StreamShape` | mesh_network-drivers/MultiTcpServer/SocketOpenTask.cpp:66-72 | in every run client-to-server streams are one ID frame and then frames, server-to-client streams one ID frame at most, data only after the server took the ID frame, and no message is cut by a handshake receive |
| `EndToEnd.NothingBeforeHandshake` | mesh_network-drivers/MultiTcpServer/MultiTcpServerSocket.cpp:110-117 | until the server has recorded the client's ID no deframer takes anything from the connection, even if a foreign reader took the ID frame |
| `EndToEnd.DeliveredAsOrdered` | DepA/SwarmDeframer/SwarmDeframer.cpp:51-77 | whatever comes out of a deframer was ordered, unchanged, at the node it names as source, for this very node or for everyone |
| `EndToEnd.OnlyTheDestinationIsReached` | mesh_network-drivers/MultiTcpServer/MultiTcpServerComponentImpl.cpp:117-121 | with distinct device IDs an order for one node is put on streams to that node only |
| `EndToEnd.HandedUpOnce` | mesh_network-drivers/MultiTcpServer/MTSTask.cpp:209-219 | after the handshake a connection hands up only data the client put on it, each message at most once, whichever readers take part |
| `EndToEnd.InOrderUnlessShared` | mesh_network-drivers/MultiTcpServer/MTSTask.cpp:186-221 | while no reader that was started for another connection takes from it, a connection hands its data up in order, without a gap, all of what was taken but for what its reader holds |
| `Ordering.OrderKeptIff` | mesh_network-drivers/MultiTcpServer/MTSTask.cpp:186-221 | from a reachable state in which a client can send over a connection, everything the connection hands up in any run is in order if and only if it was in order so far, what readers hold of it comes after all it handed up, and no two readers take from it, counting the one about to be started |
| `EndToEnd.UnicastAtMostOnce` | mesh_network-drivers/MultiTcpServer/MultiTcpServerComponentImpl.cpp:117-135 | an order for one node is handed up at most once, on all connections together |
| `Reordering.OrderCanBeLost` | mesh_network-drivers/MultiTcpServer/MTSTask.cpp:209-223 | a run in which a client's second payload is handed up before its first, because a reader left behind by an earlier connection on the slot took the first |
| `Joining.HandshakeCompletes` | mesh_network-drivers/MultiTcpServer/SocketOpenTask.cpp:64-76 | an attempt at an endpoint whose server is at the top of its loop with room, a pool entry and nobody waiting can go through: the slot carries that node's ID, which has recorded the client's and has a reader up for the connection |
| `Completion.AttemptCompletesIff` | mesh_network-drivers/MultiTcpServer/SocketOpenTask.cpp:64-76 | from every reachable state an attempt at an endpoint can go through before that server's stop if and only if the server's lost places, counting one about to be lost, are fewer than MAX_CLIENTS, whatever the server is doing and whoever waits for it |
| `Completion.AttemptCompletesRead` | mesh_network-drivers/MultiTcpServer/MTSTask.cpp:126-155 | if moreover the accept task is at the top of its loop and has a pool entry left, or the guard makes it look for one, the attempt can go through to a connection whose own reader is up |
| `Completion.AttemptLasts` | mesh_network-drivers/MultiTcpServer/SocketOpenTask.cpp:64-76 | an attempt at a server with places left that is not exhausted can go through so that the server stays that way, and hence as often as one likes |
| `MeshLimits.NodesMeshIff` | mesh_network-drivers/MultiTcpServer/SocketOpenTask.cpp:50-90 | from every reachable state in which none of these nodes has a key open twice, any nodes can come to full meshes together, every line with one open slot on its own host and port that carries the ID of the node listening there, before a server still owed something is stopped, if and only if their files have at most ten keys, which tell endpoints apart, somebody listens at each endpoint, and each server owes them nothing, or is not stopped and either has a place left without being exhausted or has lost places and owed connections of MAX_CLIENTS together at most; owed are the endpoints a node has no identified socket on, less the attempt whose answer is sent or about to be sent |
| `AttendedMesh.AttendedMeshIff` | mesh_network-drivers/MultiTcpServer/MTSTask.cpp:95-158 | from the start the network can come to a full mesh in which the connection of every open client slot is attended at its server if and only if somebody listens at every endpoint of every file, every file has at most ten keys that tell its endpoints apart, and no server is asked for more than MAX_CLIENTS connections; files need not be safe |
| `AttendedMesh.CompleteNeedsPlaces` | mesh_network-drivers/MultiTcpServer/MTSTask.cpp:95-158 | from no reachable state can the network come to such a mesh before the stop of a server whose lost places and connections asked of it exceed MAX_CLIENTS together |
| `Arrival.UnicastArrivesIff` | mesh_network-drivers/MultiTcpServer/MTSTask.cpp:126-141 | from every reachable state a payload for a connected node can be handed up from its connection before the server's stop if and only if the connection is attended: its slot is still open on it, and a reader that has not failed is on that slot or about to be started for it |
| `Broadcast.BroadcastArrivesIff` | mesh_network-drivers/MultiTcpServer/MultiTcpServerComponentImpl.cpp:102-115 | from every reachable state a broadcast can be handed up at the node an identified slot is connected to, before that server's stop, if and only if the slot's connection is attended there |
| `Arrival.NothingArrives` | mesh_network-drivers/MultiTcpServer/MTSTask.cpp:126-141 | on a connection that is not attended now nothing put from now on is ever handed up, in any run |
| `Arrival.ArrivedIsDelivered` | DepA/SwarmDeframer/SwarmDeframer.cpp:51-77 | what was handed up for an order comes out of the deframer as the ordering node's ID and the very same payload |

## Left out

- Sockets, `select`, `bind`, `listen`, timeouts, `errno` values and thread calls: the environment.
- TCP splitting and merging messages, and the framing layers and the hub below the swarm framer: library code that is
  not part of this model.
- The text format of host lines (`sscanf`), lines longer than the line buffer, and hosts longer than the parse buffer:
  lines come parsed, as an endpoint or as what was parsed before it went wrong.
- The stop: accounting is stated for runs before it, because `closeAll` resets the counter under running readers. The
  task pool bound and the network invariant cover it.
- Fairness: the results on convergence, completed attempts and arrival say that a run can go on to the result, and not
  that a scheduler must.
- The stop of the client side, which closes all client sockets under a running attempt or send.
- EndToEnd.InOrderUnlessShared: goes one way, because a shared connection can stay in order; Ordering.OrderKeptIff is
  the exact condition.
- AttendedMesh.AttendedMeshIff: speaks of runs from the start. From a later state attended connections also depend on
  pool entries left started without a reader and on how far the counter is behind them, for which no condition is given.
- AttendedMesh.CompleteNeedsPlaces: goes one way from every reachable state, for the same reason;
  MeshLimits.NodesMeshIff is exact for meshes whose connections need not be attended.
- Completion.AttemptCompletesRead: goes one way, because other clients' accepts can make the server look for pool entries.
- ServerRuns.ExactAccounting: says nothing about runs after the stop, because the counter is reset there under running
  readers.
- Codec.AcceptsMoreThanIdFrames: a malformed ID frame with one right tag byte is taken, as in the source, so no
  rejection of all malformed frames is claimed.
- `startReadTask`, `joinReadTask`, `getState`, `poll_handler`, the server's lookup by ID, telemetry, events, sGPS,
  producer and receiver components, topology and scripts: unused by these flows or only easy members.
