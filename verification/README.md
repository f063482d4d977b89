# A model of the HID socket transport

The repository is a C++ library for request/response calls over a byte stream. Three layers
stack: a typed binary serializer, a 24-byte checksummed frame header, and a client and a
server that exchange frames over sockets, with deadlines, one retry, and one thread per
connection. This project models all three in Dafny and proves what callers rely on.
`dafny verify dfyconfig.toml` checks the whole project.

## How it is built

| files | what they hold |
|---|---|
| `Bytes`, `Octets`, `Buffers` | little-endian numbers, arithmetic modulo 2^32, the byte vector `storage_t` |
| `StreamPrefix` | the header: the methods that write and read it in place, and the checksum |
| `SerializerFormat`, `Serializer`, `SerializerLaws`, `SerializerNumbers` | the format as functions; the class whose `Store` and `Load` methods refine them; the laws; the format in the numbers on the wire |
| `Transfer`, `TransferLaws` | `frame_tx` and `frame_rx` against a scripted socket and clock; deadline and termination |
| `Transaction`, `Session`, `SessionLaws`, `SessionRequests`, `SessionWaits`, `SocketServer` | one server session: the state machine, its laws, the requests and their replies, what it is told between them, and the class of `Shell*` methods whose every history is a run of that machine |
| `Client`, `ClientLaws`, `SocketClient` | the client in the same two forms, and what a call makes of the bytes it receives |
| `WireNumbers` | the frames of the protocol, and how a session ends, in numbers |
| `Connection` | two FIFO channels and the two invariants of a connection |
| `System`, `SystemInvariant`, `SystemSteps` | a client, all connections it ever opens and their sessions, under every interleaving; the invariant of every reachable state |
| `SystemLaws`, `RetryLaws`, `Transparency`, `Progress` | what callers see over whole runs |
| `Scenarios`, `StaleReply`, `ErrorReply` | runs in which callers see something else |
| `Sockets`, `SocketLaws`, `SocketTable`, `ServiceLaws` | the socket counter and the server thread under every interleaving of that thread, sessions, clients, and `Start`/`Stop` |

The operating system enters only through what it may answer. A `recv` gives between one byte
and all that is available, or an end of stream, or an error number; a `send` takes between one
byte and everything, or fails, and after a failure the connection accepts nothing more; a closed
handle fails. The clock is an arbitrary sequence of readings; a theorem that needs it monotone
says so. What a method did is recorded as a sequence of events, and its contract says that this
sequence is a run of the state machine, so what is proved of all runs of the machine holds of
the methods. The converse is not claimed: a machine may send across the boundary of header and
payload, where the methods make two sends. Results that say that some run exists cut their sends
there.

In the whole-system model a step may be taken by either end at any time, and every
receive may time out or fail at any point. `Connection.InStep` says that what a session has
absorbed, what is under way and what is unsent are exactly the frames not executed yet;
`Connection.Tidy` says that what the client has read, what is under way and what is being sent
is at most the reply to the current call and then a final ERROR frame. Everything about whole
runs follows from these two.

## Where the code differs from its documentation or from what a caller might expect

* On systems where `EAGAIN` and `EWOULDBLOCK` are one number (Linux), `frame_rx` tests the first
  and never reaches the branch that looks at the clock, so its deadline is never enforced:
  `TransferLaws.DeadlineEnforcedIffCodesDiffer` gives the exact condition and
  `TransferLaws.EqualCodesSpinForever` the silent peer that keeps it spinning.
* `ExpirationTimeGet` looks at the size and the expiration word only. The repository's test
  (dev/StreamPrefix/StreamPrefix.cpp:127-133) corrupts a header and expects it to be rejected;
  `StreamPrefix.CorruptHeaderStillExpires` is that very header, accepted, and
  `StreamPrefix.CorruptHeaderRejectedIff` is the exact condition.
* `Valid` does not look at the magic word; `StreamPrefix.BuiltIffValidWithMagic` says what the
  magic word adds.
* A failed `select` inside `frame_rx` ends it with `CONN_OK` and a partly filled buffer
  (`TransferLaws.SelectFailureLooksOk`), and a transaction can return true with bytes it never
  received (`Client.UnreceivedBytesPassAsReply`). The machines show this as the event `Broke`.
* Where no send and no `select` inside a receive fails, a request that has been read whole goes
  unanswered, with an ERROR frame as the last thing the client gets, in exactly two cases (`SessionRequests.RequestsAnswered`). One is a handler that
  fails (`SessionRequests.FailedHandlerGivesNoReply`). The other is a request without a payload:
  it is read whole with its header, but its deadline is looked at once more before it is executed
  and may have expired (`SessionRequests.LateRequestIsNotAnswered`).
* The client does not look at the command of a reply, so `Transaction` returns true for an ERROR
  frame as well, and its caller, who is given payload and code only, cannot tell it from a reply
  of the handler (`ErrorReply.ErrorPassesAsReply`).
* `std::vector<char>` is documented as a container that can be stored and loaded
  (dev/common/include/Serializer.h:150 and 347), but the type table knows `std::string` and
  `std::vector<uint8_t>` only, so storing or loading one fails.
* `Sync` leaves its connection open when it fails, so later calls on that connection can
  return an earlier call's reply. This can happen from every state between calls on a live
  connection on which every `Sync` so far has returned true (`StaleReply.StaleReply`). `SystemLaws.OwnReply` holds as long as every `Sync`
  since the connect returned true, which the caller knows. The late pong also spoils the next
  `Sync`, which can only return false unless it happens to use the same number
  (`StaleReply.NextSyncFails`).
* `Start` waits for the instance to become active and holds the lock meanwhile. If the listener
  cannot be opened 16 times in a row, the server thread gives up, and `Start` never returns and
  no `Stop` can be called; `ServiceLaws.StartReturnsIff` is the exact condition.
* For commands other than a request or a ping the server repeats the command and code of
  its previous reply (`SessionLaws.UnknownCommandRepeatsLastReply`); the session machine carries
  this pair.
* The serializer stores only the low 32 bits of a longer length or counter;
  `SerializerLaws.RoundTrip` is therefore an if-and-only-if.

## Model

| member | source | states |
|---|---|---|
| StreamPrefix.CrcSet | dev/common/include/StreamPrefix.h:179-192 | writes the checksum of the first five words into the sixth, and nothing else |
| StreamPrefix.SetParams | dev/common/include/StreamPrefix.h:40-65 | whatever the vector held, it becomes the sealed header of these parameters with timeout zero |
| StreamPrefix.SetTimeout | dev/common/include/StreamPrefix.h:67-75 | succeeds exactly on 24 bytes; stamps the count modulo 2^32 and reseals, otherwise leaves the vector alone |
| StreamPrefix.GetParams | dev/common/include/StreamPrefix.h:82-99 | succeeds exactly when the six words sum to 2^32-1; otherwise all parameters are zero |
| StreamPrefix.ExpirationTimeValid | dev/common/include/StreamPrefix.h:101-116 | answers by size, and reports an expiration exactly when its word is not zero |
| StreamPrefix.ExpirationTimeGet | dev/common/include/StreamPrefix.h:118-137 | returns the expiration word, and true exactly when there is one |
| StreamPrefix.ValidIffSum | dev/common/include/StreamPrefix.h:139-154 | a header is valid exactly when it is 24 bytes whose words sum to 2^32-1 modulo 2^32 |
| StreamPrefix.UndetectedIffDifferencesCancel | dev/common/include/StreamPrefix.h:139-154 | a corruption of a valid header goes unnoticed exactly when the word sums agree modulo 2^32 |
| StreamPrefix.TwoWordChange | dev/common/include/StreamPrefix.h:139-154 | a change in two words goes unnoticed exactly when the two differences cancel modulo 2^32 |
| StreamPrefix.OneWordChangeDetected | dev/common/include/StreamPrefix.h:139-154 | any change confined to one word of a valid header is detected |
| StreamPrefix.BuiltIffValidWithMagic | dev/common/include/StreamPrefix.h:40-65 | the headers `SetParams` and `SetTimeout` can build are exactly the valid ones with the magic word |
| StreamPrefix.HeaderFields | dev/common/include/StreamPrefix.h:40-65 | every field of a built header reads back as it was given, and the header is valid |
| StreamPrefix.TimeoutOfHeader | dev/common/include/StreamPrefix.h:67-75 | stamping a timeout changes the expiration field and no other |
| StreamPrefix.HeaderRoundTrip | dev/common/include/StreamPrefix.h:40-137 | after any sequence of `SetTimeout` calls the header is valid, gives back its parameters, and holds the last timeout modulo 2^32 |
| StreamPrefix.CorruptHeaderStillExpires | dev/StreamPrefix/StreamPrefix.cpp:116-133 | the header the library's test corrupts is invalid and its expiration is still accepted |
| StreamPrefix.CorruptHeaderRejectedIff | dev/common/include/StreamPrefix.h:118-137 | a corrupt header is rejected exactly when its four expiration bytes are zero |
| Serializer.Serializer.constructor | dev/common/include/Serializer.h:77-79 | a new serializer is OK at offset zero |
| Serializer.Serializer.ExportStatus | dev/common/include/Serializer.h:491-496 | true exactly when nothing failed |
| Serializer.Serializer.ImportStatus | dev/common/include/Serializer.h:498-504 | true exactly when nothing failed and the offset is the size of the vector |
| Serializer.Serializer.CheckSize | dev/common/include/Serializer.h:511-521 | grows the vector by the length, wherever the offset is |
| Serializer.Serializer.Store | dev/common/include/Serializer.h:523-537 | unless failed, grows the vector and writes the bytes at the offset, as the format function says |
| Serializer.Serializer.StoreFix | dev/common/include/Serializer.h:109-147 | has the effect of the format's store of a fixed-width item, whose bytes `SerializerNumbers.StoreInNumbers` spells out; an unsupported type fails |
| Serializer.Serializer.StoreVar | dev/common/include/Serializer.h:177-251 | has the effect of the format's store of a vector or string, with the shortest length form; any other container fails and writes nothing |
| Serializer.Serializer.StoreCnt | dev/common/include/Serializer.h:269-302 | has the effect of the format's store of a counter, with the shortest form |
| Serializer.Serializer.Load | dev/common/include/Serializer.h:539-548 | gives the next bytes and moves on, or fails and throws exactly when they are not there |
| Serializer.Serializer.LoadFix | dev/common/include/Serializer.h:315-344 | has the result and the effect of the format's load of a fixed-width item, on any bytes |
| Serializer.Serializer.LoadVar | dev/common/include/Serializer.h:350-432 | has the result and the effect of the format's load of a vector or string, a truncated payload leaving an output of the announced size; any other container gives an empty output, fails, and takes one byte if there is one |
| Serializer.Serializer.LoadCnt | dev/common/include/Serializer.h:440-487 | the same for counters |
| SerializerLaws.TagsSeparateKinds | dev/common/include/Serializer.h:570-650 | each kind accepts the tags of its own items and of no other kind |
| SerializerLaws.StoreItemAppends | dev/common/include/Serializer.h:523-537 | a store at the end of the vector appends exactly the item's encoding |
| SerializerLaws.StoreAllAppends | dev/common/include/Serializer.h:109-302 | any list of items stored into an empty vector gives the concatenated encodings, offset at the end |
| SerializerLaws.LoadEncoded | dev/common/include/Serializer.h:315-487 | loading an encoded item returns it and consumes exactly its encoding, wherever it lies |
| SerializerLaws.TooLargeIsNotRead | dev/common/include/Serializer.h:208-246 | an item whose length or counter does not fit in 32 bits is not read back |
| SerializerLaws.RoundTrip | dev/common/include/Serializer.h:109-504 | storing any list and loading it with the same kinds gives the same values and ends at the last byte, exactly when every length and counter is below 2^32 |
| SerializerLaws.AcceptedInputReencodes | dev/common/include/Serializer.h:367-421 | re-encoding what any accepted input held is never longer, and as long exactly when every form was minimal, and then identical |
| SerializerLaws.PrefixFails | dev/common/include/Serializer.h:539-548 | no proper prefix of an accepted input is accepted by the same schedule |
| SerializerLaws.LongerScheduleFails | dev/common/include/Serializer.h:539-548 | loading beyond the end of an accepted input fails |
| SerializerLaws.ShorterScheduleStopsShort | dev/common/include/Serializer.h:491-504 | stopping early leaves the export status true and the offset short of the end, so the import status false |
| SerializerLaws.WrongKindFails | dev/common/include/Serializer.h:315-477 | a schedule that departs from the stored kinds fails at the first departure, one past that tag, with the earlier values right and all later ones blank |
| SerializerLaws.FailureIsSticky | dev/common/include/Serializer.h:507-509 | once failed, no sequence of operations changes state, offset or vector, and every load gives a blank |
| SerializerNumbers.ItemInNumbers | dev/common/include/Serializer.h:44-68 | the encoding of every item a program can hold: 0x11 to 0x1A and 1, 2, 4 or 8 little-endian bytes (two's complement when negative); 0x20/0x21/0x22/0x24 or 0x30/0x31/0x32/0x34, 0, 1, 2 or 4 length bytes and the payload; 0x40 to 0x43 and the counter, the forms changing at 0, 255 and 65535 |
| SerializerNumbers.StoreInNumbers | dev/common/include/Serializer.h:108-302 | a store at the end of the vector appends exactly these bytes, for every kind and every value in range |
| SerializerNumbers.UnsupportedFails | dev/common/include/Serializer.h:109-147 | a type outside the table fails the serializer and writes nothing |
| SerializerNumbers.LoadInNumbers | dev/common/include/Serializer.h:315-487 | the bytes any writer of the format produces for a list of values are read back as those values, to the last byte |
| SerializerNumbers.TruncatedPayloadLeavesZeros | dev/common/include/Serializer.h:350-432 | a vector or string whose payload is shorter than its length announces fails, gives that many zeros, and the offset is behind the length |
| SerializerLaws.RunStaysInBounds | dev/common/include/Serializer.h:523-548 | over any sequence of stores and loads the offset never passes the end of the vector |
| Transfer.GetTimeval | dev/common/src/SockServerClient.cpp:44-70 | the wait ends within a microsecond before the end time, and is refused exactly when at most a millisecond is left |
| Transfer.Link.Send | dev/common/src/SockServerClient.cpp:396-408 | the socket as the model has it: on an open connection that has not failed, the scripted answer, cut to the size of the part, takes that many bytes, and one that is not positive breaks the connection |
| Transfer.FrameTx | dev/common/src/SockServerClient.cpp:357-414 | ends; sends exactly the frame on OK and a strict prefix of it otherwise, byte by byte under a test delay; on an open, unbroken connection the state is TX exactly when the last answer of `send` was negative and CLOSED exactly when it was zero; after a failure the connection takes nothing |
| Transfer.FrameRx | dev/common/src/SockServerClient.cpp:416-494 | has the outcome of the loop function; the buffer holds what was consumed over its old contents and keeps its size |
| Transfer.FrameRxUntil | dev/common/src/SockServerClient.cpp:496-514 | an expired deadline fails before anything is read; otherwise the loop with the remaining time in whole milliseconds |
| TransferLaws.BufferIsStreamPrefix | dev/common/src/SockServerClient.cpp:416-494 | OK without a failed `select` happens exactly when the buffer is the next bytes of the stream; always what was read and what is left make up the stream |
| TransferLaws.SelectFailureLooksOk | dev/common/src/SockServerClient.cpp:480-482 | whatever part of the buffer is filled, a `select` that fails with time left ends the loop there with `CONN_OK` |
| TransferLaws.LoopKeepsDeadline | dev/common/src/SockServerClient.cpp:467-478 | no wait goes past the end time, and a timeout is reported only within 1001 microseconds of it |
| TransferLaws.TwoSidedDeadline | dev/common/src/SockServerClient.cpp:496-514 | the end time exceeds the expiration by no more than the gap of the two clock readings, and no timeout is reported 2001 microseconds or more before the expiration |
| TransferLaws.LoopTerminates | dev/common/src/SockServerClient.cpp:435-488 | the loop ends within one turn per byte needed and per tick of time left, if the clock advances between would-block rounds and the codes differ |
| TransferLaws.EqualCodesNeverTimeOut | dev/common/src/SockServerClient.cpp:458-465 | where the two error codes are equal no timeout is ever reported |
| TransferLaws.DeadlineEnforcedIffCodesDiffer | dev/common/src/SockServerClient.cpp:458-478 | against a peer silent for longer than the time left the loop times out if and only if the codes differ |
| TransferLaws.EqualCodesSpinForever | dev/common/src/SockServerClient.cpp:458-465 | with equal codes there is a silent peer of every length that keeps the loop spinning |
| TransferLaws.EndNamesLastAnswer | dev/common/src/SockServerClient.cpp:435-488 | when the loop ends short, the last answer says why: end of stream is CLOSED, another error number is RX, a blocked round is TIMEOUT if at most a millisecond is left and a failed `select` otherwise |
| TransferLaws.WholeMillisecondsLeft | dev/common/src/SockServerClient.cpp:496-514 | a receive with an absolute deadline is given what is left of it, rounded down to whole milliseconds |
| TransferLaws.UntilInTime | dev/common/src/SockServerClient.cpp:496-514 | with a monotone clock such a receive never waits past its deadline by more than the gap of two readings, nor reports a timeout 2001 microseconds or more before it |
| Transaction.Transaction.Start | dev/common/src/HidTransportInt.cpp:16-31 | clears the buffers and sets start and deadline from one clock reading, keeping command and code of the last reply |
| Transaction.Transaction.ExpirationSet | dev/common/src/HidTransportInt.cpp:62-67 | the deadline counts from the start of the exchange |
| Transaction.Transaction.Reset | dev/common/src/HidTransportInt.cpp:69-87 | clears buffers, command and times and keeps command and code of the last reply |
| SocketServer.SocketServer.ShellReadPrefix | dev/common/src/SockServerClient.cpp:691-728 | a valid header moves the session on and sets deadline, command and payload size from it; anything else loses the session; the receive ends as the exchange's deadline of 5 seconds has it |
| SocketServer.SocketServer.ShellReadPayload | dev/common/src/SockServerClient.cpp:730-740 | the payload buffer holds the request's payload, or the session is lost; the receive ends as the deadline from the header has it, and with no payload to read the session is lost to a timeout exactly when the clock has reached it |
| SocketServer.SocketServer.ShellCmdExec | dev/common/src/SockServerClient.cpp:742-783 | executes as the machine does: handler for a request, echo for a ping, previous reply's command and code otherwise |
| SocketServer.SocketServer.ShellSendPrefix | dev/common/src/SockServerClient.cpp:785-793 | the header of the reply is sent, or the session is lost |
| SocketServer.SocketServer.ShellSendPayload | dev/common/src/SockServerClient.cpp:795-803 | the payload of the reply is sent and the session waits again, or it is lost |
| SocketServer.SocketServer.ShellClose | dev/common/src/SockServerClient.cpp:858-882 | on a valid handle one ERROR frame is attempted, except to a peer that closed; on an invalid one nothing happens |
| SocketServer.SocketServer.Exchange | dev/common/src/SockServerClient.cpp:915-923 | one exchange takes the session machine from reading a header back to waiting, or loses it |
| SocketServer.SocketServer.Shell | dev/common/src/SockServerClient.cpp:884-942 | turn by turn a whole session is told Stopped, WaitFail, Quiet or Ready as the stop flag and `select` say, and it is left only when stopped, after a failed wait or after a failed exchange; its history is a run of the machine and the handle ends closed; with no failure its calls and output are the reference responder's for the bytes it read, whoever leaves first, and, if it was not interrupted and read all before the peer left, for all the bytes it was offered if and only if it had a ready turn for each frame of the answer; replies fit the requests one by one in order, and there is one for every request read whole if and only if the session did not end late and the handler failed in no call; with no failed send the same holds of the frames in the output, with at most one ERROR frame after them |
| SessionWaits.LoopIsLeft | dev/common/src/SockServerClient.cpp:894-928 | every session that is over was told Ready or Quiet until it was stopped, or a wait failed, or an exchange began an ERROR frame or found the peer gone |
| SessionWaits.OfferedInput | dev/common/src/SockServerClient.cpp:884-930 | a session without failures that used up its turns answers all of the bytes in its socket exactly if it had a ready turn for each frame of the responder's answer to them |
| SessionWaits.OfferedIsRead | dev/common/src/SockServerClient.cpp:884-930 | if those bytes are whole requests and the handler fails for none, a ready turn for each is enough for all of them to be read |
| SessionLaws.ChunkingIndependence | dev/common/src/SockServerClient.cpp:884-930 | without timeouts and failed calls, ended by a stop, an error reply or the peer leaving anywhere, the handler calls and the bytes sent are those of a parser and responder on the whole input, however it is cut up |
| SessionLaws.SameInputSameOutput | dev/common/src/SockServerClient.cpp:357-494 | two such sessions over the same bytes make the same calls and send the same bytes |
| SessionLaws.UnknownCommandRepeatsLastReply | dev/common/src/SockServerClient.cpp:742-783 | whatever was answered before, a command that is neither request nor ping is answered with the command and code of the previous reply and no payload |
| SessionLaws.RepliesInRequestOrder | dev/common/src/SockServerClient.cpp:884-930 | whatever fails or times out, the replies and calls are the first ones of the reference responder, and a settled session has left none of them out if and only if it did not end by a deadline expiring on a request already read whole |
| SessionLaws.SplitFlat | dev/common/src/SockServerClient.cpp:785-803 | a stream of frames splits back into them at its length fields, with nothing left over |
| SessionLaws.WellFramedOutput | dev/common/src/SockServerClient.cpp:742-882 | if no send fails, the output is the replies, each as long as its header says, and then at most one ERROR frame of zero length |
| SessionRequests.RepliesMatchRequests | dev/common/src/SockServerClient.cpp:742-783 | the reference responder against the requests in its input: replies fit the first requests one by one, there is one for each exactly if the handler fails in no call, and the handler is given the payloads in order |
| SessionRequests.RequestsAnswered | dev/common/src/SockServerClient.cpp:884-930 | a session's replies fit the first requests it has read whole, and once settled it has one for each of them if and only if it did not end late and the handler failed in no call |
| SessionRequests.OneReplyPerRequest | dev/common/src/SockServerClient.cpp:742-930 | if no send fails, the output splits into such replies and then at most one ERROR frame, with one reply for every request read whole if and only if the session did not end late and the handler failed in no call |
| SessionRequests.FailedHandlerGivesNoReply | dev/common/src/SockServerClient.cpp:776-779 | for every request whose handler fails there is a clean run that reads it whole and answers it with an ERROR frame alone |
| SessionRequests.LateRequestIsNotAnswered | dev/common/src/SockServerClient.cpp:496-514 | for every request without a payload there is a run that reads it whole, lets its deadline expire, and answers it with an ERROR frame alone |
| WireNumbers.HeaderInNumbers | dev/common/include/StreamPrefix.h:28-65 | a header is the bytes 64 45 46 37, four little-endian words, and the word that makes all six sum to 2^32-1 |
| WireNumbers.ValidInNumbers | dev/common/include/StreamPrefix.h:139-154 | what is accepted as a header: 24 bytes whose words sum to 2^32-1 modulo 2^32 |
| WireNumbers.WordInNumbers | dev/common/include/StreamPrefix.h:170-173 | a word is read with its lowest byte first |
| WireNumbers.RequestInNumbers | dev/common/src/SockServerClient.cpp:998-1041 | a request is a header with command 100, code 0, the timeout modulo 2^32 and the size, and then the payload |
| WireNumbers.PingInNumbers | dev/common/src/SockServerClient.cpp:1218-1232 | a ping is a header with command 102, its number and the timeout |
| WireNumbers.ReplyInNumbers | dev/common/src/SockServerClient.cpp:742-783 | a request is answered with command 101 and what the handler returned, a ping with 103 and its number, anything else with the codes handed on and no payload |
| WireNumbers.ErrorInNumbers | dev/common/src/SockServerClient.cpp:858-882 | an ERROR frame is a header with command 104 and the number of the state |
| WireNumbers.FinalNamesTheCause | dev/common/include/HidTransportInt.h:38-56 | a session ends silently when stopped, when a wait fails and when the peer has closed, and with code 402, 409, 410, 411 or 500 after a timeout, a failed receive, a failed send, a failed handler or an invalid header; no other step ends it |
| WireNumbers.ExecutionInNumbers | dev/common/src/SockServerClient.cpp:742-783 | over every run the handler is called exactly for command 100, with the payload and the code of the reply before it, and an unknown command repeats that reply's command and code |
| ClientLaws.AttemptConcludes | dev/common/src/SockServerClient.cpp:1043-1095 | what an attempt comes to is decided by the bytes received: without a failed `select`, a reply if and only if they are one whole valid frame and the last receive did not fail, a true `Sync` if and only if they are the pong with its number |
| ClientLaws.RetriesExactly | dev/common/src/SockServerClient.cpp:1183-1188 | a first attempt is followed by a second if and only if its last event is a send or a receive that failed for good |
| SocketClient.SocketClient.Reconnect | dev/common/src/SockServerClient.cpp:982-996 | the old handle is closed whatever happens, and the state names what failed |
| SocketClient.SocketClient.SendPrefix | dev/common/src/SockServerClient.cpp:998-1022 | sends the header of the request with its timeout, or the attempt is lost; in any other state than OK nothing happens |
| SocketClient.SocketClient.SendPayload | dev/common/src/SockServerClient.cpp:1024-1041 | sends the payload, or the attempt is lost |
| SocketClient.SocketClient.RecvHeader | dev/common/src/SockServerClient.cpp:1043-1074 | a valid header gives code and payload size, an invalid one loses the attempt; the receive ends as the call's deadline has it |
| SocketClient.SocketClient.RecvPayload | dev/common/src/SockServerClient.cpp:1076-1095 | the reply's payload, or the attempt is lost, under the same deadline |
| SocketClient.SocketClient.RecvReply | dev/common/src/SockServerClient.cpp:1043-1095 | both together: no wait passes the call's deadline by more than the gap of two clock readings, and no timeout is reported 2001 microseconds or more before it |
| SocketClient.SocketClient.TransactionInt | dev/common/src/SockServerClient.cpp:1148-1167 | one attempt is a run of the client machine, ending in a reply or in a loss for the reported reason |
| SocketClient.SocketClient.Retry | dev/common/src/SockServerClient.cpp:1183-1188 | the second attempt is made on the new connection, and is a run of the client machine that ends in a reply or in a loss |
| SocketClient.SocketClient.Transaction | dev/common/src/SockServerClient.cpp:1169-1209 | a call with its one retry is a run of the client machine; it is retried if and only if its last event was a send or a receive that failed for good; without a failed `select` it returns true if and only if the attempt that counts received one whole valid frame and its last receive did not fail, with the payload and code of that frame; false leaves a closed handle and no output; both attempts share one deadline, kept on both sides |
| Client.UnreceivedBytesPassAsReply | dev/common/src/SockServerClient.cpp:1076-1095 | after such a `select` a transaction returns true with a payload whose unreceived rest is the zeros of the resized buffer |
| SocketClient.SocketClient.Sync | dev/common/src/SockServerClient.cpp:1211-1255 | a run of the client machine; without a failed `select` true if and only if it received 24 bytes whose words sum to 2^32-1 modulo 2^32, with command 103 and its own number; it waits no longer than its delay and reports no timeout 1001 microseconds or more before it is over |
| Connection.ServerStaysInStep | dev/common/src/SockServerClient.cpp:691-783 | no move of the session loses or reorders a request byte |
| Connection.ExecutesHead | dev/common/src/SockServerClient.cpp:742-761 | a session about to execute holds exactly the first frame not executed yet |
| Connection.ServerStaysTidy | dev/common/src/SockServerClient.cpp:742-882 | no move of the session puts anything but the current reply and then an ERROR frame on the wire |
| Connection.ExecutionIsForCurrentCall | dev/common/src/SockServerClient.cpp:742-761 | on an answered connection a session executes only the call the client is waiting for |
| Connection.AnswerIsFrame | dev/common/src/SockServerClient.cpp:742-803 | a reply parses as a frame: RESPONSE with the handler's code and payload, or PING_RESPONSE with the ping's number and no payload |
| Connection.FrameFromTidy | dev/common/src/SockServerClient.cpp:1043-1095 | the frame a waiting client reads whole is the reply, or the ERROR frame of an ended session, and the connection is answered again |
| SystemInvariant.ServerKeeps | dev/common/src/SockServerClient.cpp:884-942 | any move at the server's end of any connection, old or current, keeps the system's invariant |
| SystemSteps.ClientSendsKeeps | dev/common/src/SockServerClient.cpp:998-1041 | sending any part of a request keeps the invariant |
| SystemSteps.ClientSendFailsKeeps | dev/common/src/SockServerClient.cpp:396-408 | a failed send keeps the invariant: its frame can no longer be executed |
| SystemSteps.ClientFilledKeeps | dev/common/src/SockServerClient.cpp:1043-1095 | a completed receive keeps the invariant, and completing a call leaves an answered connection |
| SystemSteps.ReconnectsKeeps | dev/common/src/SockServerClient.cpp:1183-1188 | the retry on a new connection keeps the invariant |
| SystemSteps.Reachable | dev/common/src/SockServerClient.cpp:1148-1255 | the invariant holds in every state of every run |
| SystemLaws.OwnReply | dev/common/src/SockServerClient.cpp:1169-1209 | in every run, a transaction that returns true under a RESPONSE header has the payload and code the handler returned for that call's frame, if every `Sync` since the connect returned true; otherwise it has the session's final ERROR frame |
| StaleReply.StaleReply | dev/common/src/SockServerClient.cpp:1235-1248 | from every invariant state between calls on a live, answered connection, for all frames and handler results, there is a run in which a `Sync` fails in its receive and a later call returns the earlier call's result, its own frame never having reached the handler |
| StaleReply.ReachableStale | dev/common/src/SockServerClient.cpp:1235-1248 | every reachable state between calls on such a connection has such a continuation |
| StaleReply.EarlierPongIsRefused | dev/common/src/SockServerClient.cpp:1244-1248 | in every run, a `Sync` begun while a header with another number is the first thing under way to the client can only return false |
| StaleReply.NextSyncFails | dev/common/src/SockServerClient.cpp:1235-1248 | from every invariant state between calls on a live, answered connection there is a run with a failed `Sync` after which every `Sync` with another number returns false |
| ErrorReply.ErrorPassesAsReply | dev/common/src/SockServerClient.cpp:1053-1060 | from every state between calls on a live, answered connection an empty request can return true with the same payload and code in two ways: the handler returned that code, or the server timed out and never called it |
| SystemLaws.ExecutionsUnderRetry | dev/common/src/SockServerClient.cpp:1183-1188 | in every run one transaction causes at most two handler calls, at most one per attempt, none for an attempt that ended in a send that failed or returned zero, so two only if the first attempt ended in a failed receive |
| RetryLaws.RetriedExactly | dev/common/src/SockServerClient.cpp:1183-1188 | in every run a call has a second attempt, was refused a new connection, or is reconnecting, if and only if it is a transaction whose first attempt ended in a send or a receive that failed for good |
| SystemLaws.FailedSendIsNeverExecuted | dev/common/src/SockServerClient.cpp:396-408 | once an attempt has ended in a send that failed or returned zero, its connection has made no handler call for it and never will |
| SystemLaws.HandlerCallsAreNamed | dev/common/src/SockServerClient.cpp:742-761 | every handler call is given the frame of a recorded transaction, in call order and at most once per connection |
| Transparency.RpcTransparency | dev/common/src/SockServerClient.cpp:742-783 | in every failure-free run every `Sync` returns true, every transaction returns what calling the handler on its frame returns, the handler sees each frame once and in order, and nothing is under way between calls |
| Progress.EveryStepAdvances | dev/common/src/SockServerClient.cpp:1148-1255 | in a failure-free run every step but the start of a call and an idle turn leaves less work, only the execution of the request adding that of its reply, and no stage is entered again |
| Progress.NeverStuck | dev/common/src/SockServerClient.cpp:1148-1255 | as long as a call is under way there is such a step, with sends cut where the code cuts them |
| Progress.EveryScheduleEnds | dev/common/src/SockServerClient.cpp:1148-1255 | every failure-free schedule without new calls has no more such steps than the work left at its beginning and the reply allow, and if the call has not returned there is another |
| Progress.EveryCallCanReturn | dev/common/src/SockServerClient.cpp:1148-1255 | every failure-free run can be continued without failure until the call in progress has returned |
| SocketTable.Process.SocketOpen | dev/common/src/SockServerClient.cpp:117-143 | a socket that opens is counted, one that does not is reported and not counted |
| SocketTable.Process.SocketClose | dev/common/src/SockServerClient.cpp:145-153 | a valid handle is uncounted, closed and made invalid; an invalid one changes nothing |
| SocketTable.Process.SocketAccept | dev/common/src/SockServerClient.cpp:269-286 | an accepted socket is counted |
| SocketTable.Process.Connect | dev/common/src/SockServerClient.cpp:982-996 | closes the old handle and opens a new one, each counted once, and keeps it open when connecting fails |
| SocketTable.ConnectIsARun | dev/common/src/SockServerClient.cpp:982-996 | run alone, the machine's steps of a `connect` have the effect of the method |
| SocketLaws.SocketConservation | dev/common/src/SockServerClient.cpp:117-153 | under every interleaving no socket is closed twice, held twice or lost, and whenever no thread is in the middle of opening or closing, the counter is the number of valid handles |
| SocketLaws.StopLeavesOnlyClients | dev/common/src/SockServerClient.cpp:659-676 | when `Stop` returns, listener and sessions are closed, the list of sessions is empty, the instance is inactive, and only clients hold sockets |
| ServiceLaws.ServiceEndsFor | dev/common/src/SockServerClient.cpp:547-612 | in every run the server thread leaves its loop only after 16 failed starts in a row, a failed wait or accept, or a call of `Stop`, is never past one of the first two without having left it, and begins at most one session after `Stop` is called |
| ServiceLaws.StartReturnsIff | dev/common/src/SockServerClient.cpp:625-657 | a call of `Start` can still return if and only if the instance is active, or the thread has neither ended nor failed to start 16 times; otherwise neither `Start` returns nor `Stop` is called in any continuation |
| ServiceLaws.StartCanHang | dev/common/src/SockServerClient.cpp:547-612 | whenever `Start` can be called there is a run in which it never returns |

## Left out

- SystemLaws.OwnReply: after a failed `Sync` nothing is promised, although a single later call may by chance still return its own reply; `StaleReply.StaleReply` shows from every state what can go wrong.
- SessionLaws.ChunkingIndependence: a payload length of 2^31 or more, which the source casts to `int`, is read as announced.
- SessionLaws.SameInputSameOutput: the same for lengths of 2^31 and more.
- SessionLaws.RepliesInRequestOrder: the same for lengths of 2^31 and more.
- SessionRequests.OneReplyPerRequest: the same for lengths of 2^31 and more.
- SocketServer.SocketServer.Shell: a script of `select` answers that is spent counts as a stop request, and a spent script of `recv` answers as a fatal receive error.
- Transfer.FrameTx: sizes of 2^31 bytes and more, where the casts to `int` would wrap.
- Transfer.FrameRx: the same casts.
- Serializer.Serializer.CheckSize: capacity and failing allocation; the vector always grows.
- Serializer.Serializer.StoreFix: type detection by name is a datatype of kinds; `float` and `double` are four and eight bytes of unsigned number.
- Transparency.RpcTransparency: one connection, as the failure-free runs of a client never open a second one.
- SocketLaws.SocketConservation: `Service`, `StartMe`, `StopMe`, the sessions and the clients are steps on a value, because their effects interleave with other threads; a handle the system reuses is a new number.
- Starting a server whose thread gave up by itself, without a `Stop` in between: assigning to the joinable thread object ends the process, and the model has no step for it.
- A failed `select` inside a receive in the whole-system model; the session and client machines and the methods have it.
- A `Connect` by the user that fails: for the model the handle is closed.
- Several clients of one server in the whole-system model: they share no connection, only the handler and the socket counter, which `Sockets` covers for any number of clients.
- C++ exceptions other than the serializer's `length_error` and a throwing handler.
- Addresses, `bind`, `listen`, `unlink`, `fcntl`, `setsockopt` and `WSAStartup`: only their success or failure where it decides something.
- Logging, checkpoints other than start and deadline, error texts and error positions: they decide nothing.
- The sample programs and the older test programs.
