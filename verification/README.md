# Verification of Cpp-SocketLibrary

A Dafny model of the parts of the library whose behaviour its own loops and fields decide, with
proofs of what they promise. `dafny verify dfyconfig.toml` checks all of it.

Two subjects are modelled.

**The stream reader** (`ConnectionOrientedSocket`). A stream is the bytes a peer's `send` accepted,
cut into consumed, queued and in-flight bytes, and the state of the peer's end. Sender, network,
fragment sizes, time-outs and `recv` failures are a script with one entry for each stay of the reader
in the kernel; every script is legal, so a statement about all scripts is a statement about every
interleaving and every fragmentation. A script is finite and describes a run up to some moment: a
call still inside the kernel at that moment is `Waiting`, which is how statements about
non-termination are made. The files: `StreamKernel` (kernel), `StreamReader` (the operations as
functions), `ConnectionOrientedSocket` (the class with its loops and buffer, proved to compute those
functions), `StreamAccounting` (facts about one call), `StreamTheorems`, `StreamFraming` and
`StreamEndings` (whole runs).

**The lifecycle of datagram and server sockets** (`UDPSocket`, `DatagramIPCSocket`,
`IPCServerSocket`, and the constructors of `TCPSocket`, `StreamIPCSocket` and `TCPServerSocket`). A
host has a table of open descriptors, the file names of Unix sockets and the datagrams waiting on each
descriptor. Whether a system call succeeds is an argument, so each theorem covers every pattern of
failures. `Lifecycle` and `Connections` have the operations as functions, `Programs` sequences of them on any
number of objects; the classes in `UDPSocket`, `DatagramIPCSocket`, `IPCServerSocket`, `StreamClients`
and `TCPServerSocket` are proved to compute those functions; `Outcomes` says what each operation returns
and leaves behind in every case; `Descriptors`, `Routing` and `Messages` prove what every program keeps.

What the kernel is taken to do:

- `recv(n)` with bytes queued takes between 1 and min(n, queued) of them, returns 0 once the end of
  the stream has arrived and the queue is empty, blocks otherwise, and may fail with -1.
- `select` reports a descriptor readable when bytes are queued or the end of the stream has arrived
  by the time the wait is over, and times out otherwise. The end of the stream arrives after the data.
- Descriptor numbers are not issued twice, where POSIX reissues the lowest free one. What depends on
  it is said with the result.
- A file name bound by a Unix socket stays when the descriptor is closed. An empty name stands for
  Linux's abstract addresses, which go with their descriptor and which `remove` does not see.
- Whether the far end of an address is of the right kind and accepts is part of the kernel's answer.
- One reader per stream, flags 0, no signals. Callbacks given to `bind` leave the descriptor alone.

## Main results

- `RunConserves`: in every reachable state no byte of a stream is lost, duplicated or reordered, and
  the consumed bytes are the returned strings plus the delimiters and NULs the calls stopped on.
- `FramesComeOutInOrder`, `FramingWithArrivals`, `ReadStopsExactly`, `FramingRoundTrip`: delimited
  messages come out as they went in, and exactly when: if and only if arrivals keep ahead of the polls.
- `CuttingDoesNotMatter`: fragmentation and the split into calls change neither bytes nor residue.
- `ReceiveAllIsReadToNul`, `ReceiveAllTerminatesExactly`: `receiveAll` is a delimited read to NUL, except
  that it never returns exactly when the stream ends without one.
- `UdpBindReturns`, `DatagramBindSucceedsExactly`, `DatagramCloseThenBind`, `UdpSendExactly`,
  `DatagramSendExactly`: what an operation returns and leaves on the host, exactly, in every case.
- `RunAccounting`, `ProgramAccounting`: which descriptors leak, exactly, in programs of all six classes.
- `ConnectLoopFindsFirst`, `TcpServeExactly`: what the TCP constructors end with.
- `RunStaysConsistent`: bound exactly when the optional field is present; no `value()` ever throws.
- `RunRoutes`, `RunRouted`: when a path still leads to its socket.
- `RunKeepsBoundaries`: the i-th receive returns the start of the i-th datagram.

## Where the code differs from its documentation or apparent intent

- Binding a bound object cannot succeed: the new descriptor replaces the old one before `close` runs,
  so `close` closes the new one and the old one stays open (`UdpRebindFails`, `DatagramRebindFails`).
- `receiveAll` does not return once the peer has closed and no NUL is left, since end of stream reads
  as ready and as an empty string (`ReceiveAllTerminatesExactly`).
- The comment on `UDPSocket::bind` promises an exception when binding fails; a failed `::bind` returns
  -1, and the exception is thrown when the bound port cannot be read back (`UdpBindSucceedsExactly`).
- A string `receiveFrom` that fails returns a string of NULs of the requested length (`ReceiveExactly`).
- The address constructor of `TCPSocket`, `StreamIPCSocket`'s constructor and a refused socket option in
  `TCPServerSocket` throw without closing what they opened.
- A failed `IPCServerSocket` construction removes the path of the live server it collided with
  (`ServeExactly`), and a displaced `DatagramIPCSocket` removes the new owner's path
  (`DisplacedCloseUnlinksNewOwner`).

## Model

| member | source | states |
|---|---|---|
| StreamKernel.SendAccepts | src/socket/ConnectionOrientedSocket.cpp:21-29 | the count send returns, short or -1, says exactly which bytes of the message joined the stream |
| ConnectionOrientedSockets.ConnectionOrientedSocket.Send | src/socket/ConnectionOrientedSocket.cpp:21-29 | send changes the outgoing stream and returns what SendBytes says, and leaves the incoming one alone |
| StreamKernel.EnvironmentOnlyAppends | src/socket/ConnectionOrientedSocket.cpp:101-109 | whatever sender and network do between and during the reader's kernel calls only appends to what it will see |
| StreamAccounting.RecvReads | src/socket/ConnectionOrientedSocket.cpp:103-108 | whatever happens while recv waits, the bytes it returns are the next ones of the stream and nothing else is lost or moved |
| StreamAccounting.RecvWhenReadable | src/socket/ConnectionOrientedSocket.cpp:101-109 | a recv after a poll that saw something does not block, and takes a byte when one is queued |
| ConnectionOrientedSockets.ConnectionOrientedSocket.ReceiveAmountInto | src/socket/ConnectionOrientedSocket.cpp:93-112 | the loop computes Amount, puts exactly those bytes at the front of the buffer, leaves the rest of it unchanged and keeps its arithmetic within an int |
| ConnectionOrientedSockets.ConnectionOrientedSocket.ReceiveRound | src/socket/ConnectionOrientedSocket.cpp:101-109 | one round of that loop: the new counter, the bytes written, and whether the loop goes on |
| ConnectionOrientedSockets.ConnectionOrientedSocket.ReceiveAmount | src/socket/ConnectionOrientedSocket.cpp:49-56 | the string overload returns what the buffer overload received |
| ConnectionOrientedSockets.ConnectionOrientedSocket.Get | src/socket/ConnectionOrientedSocket.cpp:31-39 | one byte, or none when nothing was received |
| ConnectionOrientedSockets.ConnectionOrientedSocket.ReceiveToDelimiter | src/socket/ConnectionOrientedSocket.cpp:67-91 | refuses NUL without touching the socket; otherwise the loop computes ReadTo |
| ConnectionOrientedSockets.ConnectionOrientedSocket.ReceiveAll | src/socket/ConnectionOrientedSocket.cpp:122-142 | the loop computes ReadAll |
| ConnectionOrientedSockets.ConnectionOrientedSocket.Ready | src/socket/ConnectionOrientedSocket.cpp:7-12 | ready exactly when the poll counted something |
| StreamAccounting.AmountLoopReads | src/socket/ConnectionOrientedSocket.cpp:93-112 | the bytes returned are exactly the bytes consumed, in order, at most n |
| StreamAccounting.DelimiterLoopSplits | src/socket/ConnectionOrientedSocket.cpp:80-90 | what the loop took has the delimiter at most as its last byte, and what it returns is the part before |
| StreamAccounting.DelimiterLoopBound | src/socket/ConnectionOrientedSocket.cpp:80-88 | a loop still running took one byte for every two kernel calls, none of them the delimiter |
| StreamAccounting.SecondPollCountsOne | src/socket/ConnectionOrientedSocket.cpp:128-130 | the poll count receiveAll uses as read size is 1 whenever it is used, and no byte is taken by polling |
| StreamAccounting.AllLoopSplits | src/socket/ConnectionOrientedSocket.cpp:122-142 | receiveAll returns what it took up to the NUL it stopped on, and takes nothing after it |
| StreamTheorems.PerformExplained | src/socket/ConnectionOrientedSocket.cpp:31-142 | for every receive operation and script, how the bytes it took explain the bytes it returned |
| StreamTheorems.RunConserves | src/socket/ConnectionOrientedSocket.cpp:21-142 | accepted = consumed ++ queued ++ in flight in every state of every run of any mix of calls, and consumed = the calls' bytes in call order |
| StreamFraming.FramesComeOutInOrder | src/socket/ConnectionOrientedSocket.cpp:67-91 | under any interleaving, k reads that stopped on the delimiter returned the first k framed messages and consumed exactly their frames |
| StreamFraming.ReadStopsExactly | src/socket/ConnectionOrientedSocket.cpp:75-90 | on any stream and script, recv failures and end of stream included, a read stops on its delimiter exactly when sender and network keep up with its polls until one arrives |
| StreamFraming.ReadOnMessage | src/socket/ConnectionOrientedSocket.cpp:75-90 | a message that is kept up with, also when it arrives in pieces during its read, is returned; one that is not does not end the read on its delimiter |
| StreamFraming.FramingWithArrivals | src/socket/ConnectionOrientedSocket.cpp:67-112 | for any arrival pattern, all k reads stop on the delimiter exactly when the network keeps up with the frames; they then returned exactly the messages, and the stream is what sender and network made of it less the frames |
| StreamFraming.PiecesDuringTheRead | src/socket/ConnectionOrientedSocket.cpp:80-88 | a read that begins on an empty queue and is fed its message and its delimiter between polls returns the message |
| StreamFraming.FramingRoundTrip | src/socket/ConnectionOrientedSocket.cpp:67-112 | queued frames are returned one per call, whatever else happens, and every byte after the last delimiter stays unread |
| StreamTheorems.ShortReadSawNothing | src/socket/ConnectionOrientedSocket.cpp:75-88 | a delimited read without its delimiter ended with an empty queue, unless recv failed |
| StreamTheorems.ReceiveAllStuck | src/socket/ConnectionOrientedSocket.cpp:128-139 | on a stream that has ended and is drained, no number of rounds returns or changes anything |
| StreamTheorems.ReceiveAllReturns | src/socket/ConnectionOrientedSocket.cpp:128-139 | receiveAll returns only after a NUL or after a poll that found neither data nor end of stream |
| StreamTheorems.ReceiveAllBound | src/socket/ConnectionOrientedSocket.cpp:128-139 | a receiveAll still running took a byte or met a failing recv in every three kernel calls, or the stream is drained and NUL-free |
| StreamEndings.ReceiveToDelimiterTerminates | src/socket/ConnectionOrientedSocket.cpp:80-90 | at most two kernel calls a byte and one more, also after the peer closes and when recv fails |
| StreamEndings.ReceiveAllTerminatesExactly | src/socket/ConnectionOrientedSocket.cpp:122-142 | past three kernel calls for each byte and each failing recv, still running exactly when the stream ended without NUL and is drained, and then for every continuation |
| StreamEndings.AllLoopOnFixed | src/socket/ConnectionOrientedSocket.cpp:122-142 | on a queue nothing arrives on: the NUL-free prefix, at most one byte more consumed, and return exactly when a NUL is there or the stream has not ended |
| StreamEndings.ReadToOnFixed | src/socket/ConnectionOrientedSocket.cpp:67-91 | on a queue nothing arrives on: the longest prefix without the delimiter, and the delimiter consumed when it is there |
| StreamEndings.ReceiveAllIsReadToNul | src/socket/ConnectionOrientedSocket.cpp:67-142 | the two differently written loops agree on value and remaining stream, except where receiveAll does not return, which is stated exactly |
| StreamEndings.SizedRunReturnsQueue | src/socket/ConnectionOrientedSocket.cpp:31-56 | any series of get and receiveAmount the queue can serve returns the front of the queue, each its share |
| StreamEndings.CuttingDoesNotMatter | src/socket/ConnectionOrientedSocket.cpp:31-112 | two series for the same total return the same bytes and leave the same stream, whatever the fragments |
| StreamEndings.ShortAmountSawNothing | src/socket/ConnectionOrientedSocket.cpp:101-111 | fewer than n bytes come back only with the queue empty, unless recv failed |
| StreamEndings.AmountTerminates | src/socket/ConnectionOrientedSocket.cpp:93-112 | the first recv, which no poll precedes, blocks only while there is nothing to read; after it at most 2(n - 1) kernel calls follow |
| SocketAddresses.PortWriteReadsBack | src/address/SocketAddress.cpp:9-30 | a port written through the IPv4 view reads back for every family, and no other byte changes |
| SocketAddresses.ViewsAgreeExactlyOnSharedOffset | src/address/SocketAddress.cpp:20-30 | writing through one view and reading through another works exactly when they share the port's offset |
| SocketAddresses.GettersReadBytes | src/address/SocketAddress.cpp:9-30 | version and family from the first two bytes, the port in network order from the next two whatever the family |
| SocketPaths.KernelSeesName | src/ipc/DatagramIPCSocket.cpp:25-39 | the name the kernel finds in the copied path is the name remove() is given |
| SocketPaths.SamePathSameAddress | src/ipc/DatagramIPCSocket.cpp:125-138 | truncation is idempotent, and two paths make one address exactly when they agree after truncation and the cut at NUL |
| SocketPaths.TruncateKeepsPrefix | src/ipc/DatagramIPCSocket.cpp:30-33 | the path in use is the one given up to 108 bytes, and the whole of it when it fits; its name ends only there or at a NUL |
| SocketPaths.SunPathBytes | src/ipc/DatagramIPCSocket.cpp:25-39 | every byte of the address: the path up to its first NUL or its 108th byte, then NULs |
| SocketPaths.FittingPathsDiffer | src/ipc/DatagramIPCSocket.cpp:25-39 | paths that fit and contain no NUL are their own names and make one address only when equal |
| UDPSockets.UDPSocket.Bind | src/socket/UDPSocket.cpp:66-115 | field by field and call by call, bind computes UdpBind, whose result, fields and host the Outcomes lemmas state in every case |
| UDPSockets.UDPSocket.BindName | src/socket/UDPSocket.cpp:44-64 | throws without effect when nothing resolves, otherwise binds the first address |
| UDPSockets.UDPSocket.InitialiseListeningPortNumber | src/socket/UDPSocket.cpp:254-264 | stores the reported port, or closes and throws |
| UDPSockets.UDPSocket.Close | src/socket/UDPSocket.cpp:117-124 | close computes UdpClose, described by UdpCloseExactly |
| UDPSockets.UDPSocket.SendTo | src/socket/UDPSocket.cpp:143-159 | sendTo computes UdpSend, described by UdpSendExactly |
| UDPSockets.UDPSocket.SendToName | src/socket/UDPSocket.cpp:166-177 | 0 and no address when nothing resolves, otherwise a send to the first address, which is returned |
| UDPSockets.UDPSocket.ReceiveFromInto | src/socket/UDPSocket.cpp:195-212 | -1 and the empty address without touching buffer or queue when unbound or asked for nothing; otherwise the datagram's first bytes over the front of the buffer, and its sender |
| UDPSockets.UDPSocket.ReceiveFrom | src/socket/UDPSocket.cpp:179-193 | the string version computes ReceiveString: string, code and sender |
| DatagramIPCSockets.DatagramIPCSocket.Bind | src/ipc/DatagramIPCSocket.cpp:19-73 | field by field and call by call, bind computes DatagramBind, whose result, fields and host the Outcomes lemmas state in every case |
| DatagramIPCSockets.DatagramIPCSocket.Close | src/ipc/DatagramIPCSocket.cpp:178-189 | close computes DatagramClose, described by DatagramCloseExactly |
| DatagramIPCSockets.DatagramIPCSocket.SendTo | src/ipc/DatagramIPCSocket.cpp:112-143 | sendTo computes DatagramSend, described by DatagramSendExactly |
| DatagramIPCSockets.DatagramIPCSocket.ReceiveFromInto | src/ipc/DatagramIPCSocket.cpp:161-176 | the code and the socket's own path, whose value() throws only on a bound socket without one |
| DatagramIPCSockets.DatagramIPCSocket.ReceiveFrom | src/ipc/DatagramIPCSocket.cpp:145-159 | the string version computes DatagramReceive: string, code and own path |
| IPCServerSockets.IPCServerSocket.ConstructSocket | src/ipc/IPCServerSocket.cpp:40-85 | the constructor computes Serve |
| IPCServerSockets.IPCServerSocket.Close | src/ipc/IPCServerSocket.cpp:113-118 | close computes ServerClose, described by ServerCloseExactly |
| Descriptors.UdpBindDescriptors | src/socket/UDPSocket.cpp:66-115 | however a bind goes, it ends holding its new descriptor or none, and nothing else opens or closes |
| Descriptors.DatagramBindDescriptors | src/ipc/DatagramIPCSocket.cpp:47-69 | the same for a datagram IPC socket |
| Descriptors.ServeDescriptors | src/ipc/IPCServerSocket.cpp:62-84 | a server construction leaves its descriptor open exactly when it succeeds |
| Descriptors.StepOrphans | src/socket/UDPSocket.cpp:66-124 | a bind that reaches socket creation orphans the descriptor held on entry, three constructor failures orphan theirs, and nothing else orphans any |
| Descriptors.RunAccounting | src/socket/UDPSocket.cpp:66-159 | over every program: open = held + orphaned, one orphan for each operation that loses a descriptor, and no leak exactly when there is none |
| Descriptors.ProgramAccounting | src/ipc/DatagramIPCSocket.cpp:47-72 | the count of open descriptors of every program that starts without objects |
| Descriptors.StepConsistent | src/ipc/DatagramIPCSocket.cpp:53-73 | every operation keeps bound equivalent to the presence of port or path and throws no bad optional access |
| Descriptors.RunStaysConsistent | src/socket/UDPSocket.cpp:94-124 | the same over every program, throwing operations included |
| Descriptors.BindReplyTellsBound | src/ipc/DatagramIPCSocket.cpp:65-72 | the code bind returns is 0 exactly when the object is bound afterwards, and -1 otherwise; a bind that throws binds nothing |
| Descriptors.ConstructsOrThrows | src/ipc/IPCServerSocket.cpp:10-13 | a constructor that throws leaves no object behind, one that returns exactly one, and no other object changes |
| Outcomes.UdpRebindFails | src/socket/UDPSocket.cpp:76-109 | binding a bound socket, with or without a descriptor, returns -1 and leaves it unbound without descriptor, and an old descriptor open |
| Outcomes.UdpCloseThenBind | src/socket/UDPSocket.cpp:104-124 | close then bind moves the socket: family, port, descriptor table, and the address asked for with the new port |
| Outcomes.DatagramRebindFails | src/ipc/DatagramIPCSocket.cpp:47-69 | the same failure, with the old path given up as well, and exactly which names go |
| Outcomes.UdpBindSucceedsExactly | src/socket/UDPSocket.cpp:94-114 | 0, -1 or an exception, each exactly when; what a throwing bind leaves; the returned address carries the stored port |
| Outcomes.UdpBindReturns | src/socket/UDPSocket.cpp:72-114 | on an unbound socket: 0 with the address asked for, its port replaced by the reported one and no other byte changed, or -1 with the empty address and the new descriptor kept |
| Outcomes.UdpBindThrows | src/socket/UDPSocket.cpp:66-80 | without an address BindingException and nothing changes; without a socket SocketException, the descriptor lost and bound and port kept |
| Outcomes.UdpCloseExactly | src/socket/UDPSocket.cpp:117-124 | close keeps the family only, closes the descriptor and leaves file names and inboxes alone |
| Outcomes.UdpSendExactly | src/socket/UDPSocket.cpp:143-159 | -2, -1 or the length of the message, each exactly when, and which inbox the datagram is then in; no descriptor is left |
| Outcomes.DatagramBindSucceedsExactly | src/ipc/DatagramIPCSocket.cpp:28-72 | on an unbound socket: 0 exactly when the kernel is willing and the name is free or overridden; the path stored and returned is the given one up to 108 bytes and leads to the socket; otherwise -1, no path, and the descriptor kept |
| Outcomes.DatagramBindThrows | src/ipc/DatagramIPCSocket.cpp:19-51 | without a path BindingException and nothing changes; without a socket SocketException, with the overridden name removed already |
| Outcomes.DatagramCloseExactly | src/ipc/DatagramIPCSocket.cpp:178-189 | close leaves a new object, unlinks the path of a bound one whoever owns it by now, and no other file name |
| Outcomes.DatagramCloseThenBind | src/ipc/DatagramIPCSocket.cpp:47-72 | close then bind works exactly for a path that is free, overridden or its own before, which then leads to the new descriptor |
| Outcomes.DatagramSendExactly | src/ipc/DatagramIPCSocket.cpp:112-143 | -2, -1 or the length of the message, each exactly when, and which inbox the datagram is then in; no descriptor is left |
| Outcomes.ServerCloseExactly | src/ipc/IPCServerSocket.cpp:113-118 | close closes the descriptor, keeps the path field and unlinks that path, whoever owns it, and no other file name |
| Routing.StepRoutes | src/ipc/DatagramIPCSocket.cpp:41-72 | an operation on other objects breaks a name's route exactly when it unlinks the name |
| Routing.RunRoutes | src/ipc/IPCServerSocket.cpp:56-84 | over every program, servers and overrides included, a live socket or server keeps its name exactly while nothing unlinks it |
| Routing.ServeExactly | src/ipc/IPCServerSocket.cpp:40-84 | when a construction succeeds and which exception it throws otherwise; one that fails leaves no descriptor and removes the name, whoever made it; what happens to every other name |
| Routing.RunRouted | src/ipc/DatagramIPCSocket.cpp:41-72 | without override and servers no two bound sockets share a name, and each that holds its descriptor is where its path leads |
| Routing.DisplacedCloseUnlinksNewOwner | src/ipc/DatagramIPCSocket.cpp:178-189 | the run, for every path, in which the displaced socket's close makes the new owner unreachable |
| Messages.SendReachesExactly | src/ipc/DatagramIPCSocket.cpp:112-143 | a send reaches an inbox exactly when its name leads there and kernel and descriptor allow; the bound path, the returned path and any equivalent one are interchangeable |
| Messages.ReceiveExactly | src/socket/UDPSocket.cpp:179-212 | when a receive takes a datagram and what string, code and sender it returns, for every length, negative ones included |
| Messages.DatagramReceiveExactly | src/ipc/DatagramIPCSocket.cpp:145-176 | the same with the own path: string, code and path in every case, bound or not |
| Messages.RunKeepsBoundaries | src/ipc/DatagramIPCSocket.cpp:145-176 | over every program the i-th successful receive returns the first part and the sender of the i-th datagram delivered, or the own path, never joined or split |
| Connections.ConnectLoopFindsFirst | src/socket/TCPSocket.cpp:94-119 | for every list and pattern of failures: connected to the first candidate that works, family and address from it, host name and port kept, earlier descriptors closed; or thrown with none left open |
| Connections.TcpServeExactly | src/serversocket/TCPServerSocket.cpp:101-171 | when construction succeeds and which exception it throws otherwise; stored port and stored address agree exactly when the port was 0 or resolution kept it |
| Descriptors.TcpServeBuilds | src/serversocket/TCPServerSocket.cpp:112-159 | a TCP server construction that throws leaves its descriptor open exactly when the socket option was refused |
| Descriptors.ConnectOneBuilds | src/socket/TCPSocket.cpp:27-51 | the address constructor takes port, family and host name from the address and keeps the descriptor it opened; when it throws, a SocketException, it leaves that open |
| Descriptors.IpcConnectBuilds | src/ipc/StreamIPCSocket.cpp:50-77 | connects exactly when the path leads somewhere and connect succeeds, and keeps its descriptor; otherwise throws SocketException and leaves open what it got; the stored path is the given one up to 108 bytes and leads to the same place |
| StreamClients.TCPSocket.ConstructSocket | src/socket/TCPSocket.cpp:73-113 | throws without effect when nothing resolves; otherwise the loop computes ConnectLoop |
| StreamClients.TCPSocket.ConstructFromAddress | src/socket/TCPSocket.cpp:27-51 | the constructor computes ConnectOne |
| StreamClients.TCPSocket.Close | src/socket/TCPSocket.cpp:115-119 | closes the descriptor and forgets it, keeping all other fields |
| StreamClients.CloseCopied | src/socket/TCPSocket.cpp:53-71 | a copy shares the descriptor: closing either leaves the other with a closed one; closing that too changes nothing only because descriptor numbers are not issued twice here, while POSIX reissues the lowest free one |
| StreamClients.StreamIPCSocket.ConstructSocket | src/ipc/StreamIPCSocket.cpp:50-77 | the constructor computes IpcConnect |
| TCPServerSockets.TCPServerSocket.ConstructSocket | src/serversocket/TCPServerSocket.cpp:90-159 | the constructor computes TcpServe |
| TCPServerSockets.TCPServerSocket.InitialisePortNumber | src/serversocket/TCPServerSocket.cpp:161-171 | stores the reported port, or closes and throws |

## Left out

- ConnectionOrientedSockets.ConnectionOrientedSocket.ReceiveAmountInto: amounts above 2^31-1, where the cast to int turns negative, are not modelled; the other amounts all are.
- ConnectionOrientedSockets.ConnectionOrientedSocket.ReceiveRound: the same amounts are left out.
- ConnectionOrientedSockets.ConnectionOrientedSocket.ReceiveAmount: the same amounts are left out.
- ConnectionOrientedSockets.ConnectionOrientedSocket.Ready: a poll never fails here; on a socket already closed the library's returns -1, which ready() reports as not ready.
- Descriptors.RunAccounting: objects are not copied; what a copy means for one descriptor is StreamClients.CloseCopied.
- Routing.RunRoutes: files removed or bound by other programs are not part of a run; an initial host may contain any.
- UDPSockets.UDPSocket.SendTo: the destination address itself is not modelled, only where on this host, if anywhere, the network delivers the datagram.
- A receive on an empty datagram queue would block; here it does not succeed and changes nothing.
- Polls that fail, on a socket already closed or in the middle of a read, MSG_PEEK and other flags, signals and SIGPIPE.
- Time: a poll sees something or times out. UDPSocket's own poll passes a zero timeout whatever it is asked for, which this does not show.
- Byte order and offsets are Linux's on a little-endian machine; Windows branches and other layouts are not modelled.
- Name resolution, address text and error messages: the resolver's list and code are arguments.
- accept() of the server classes, getters, hint constructors and capacity calls would add only simple members.
- The copy operations of UDPSocket, DatagramIPCSocket and the server classes do what TCPSocket's do.
