# Verification model of bofwebrpc

A Dafny model of the stateful parts of the web library, with proofs of what they promise. Check it
with `dafny verify dfyconfig.toml`.

**Chunked file transfer.** `BofWebClient::Upload` and `Download` move a file in chunks; the handlers
`PostUpload` and `GetDownload` of the web server keep one session per transfer. Both sides hold their
own copy of the window and agree only through "Content-Range" headers (the syntax is a subset of
section 14.4 of RFC 9110) and the statuses 200 and 206.

| file | what it holds |
| --- | --- |
| `Words.dfy` | machine words with their wrap-around and truncation |
| `ContentRange.dfy` | the header printer and parser, and the language the parser accepts |
| `Transfer.dfy` | one request as a step on (sessions, files): the specification of the server |
| `UpDownServer.dfy` | the server as an object: session map, open files, allocated buffers; it refines the step |
| `TransferRuns.dfy` | exact windows, end of failed sessions, stored bytes and session isolation, over all runs |
| `Statuses.dfy` | which request gets which status, by the numbers of the request and of its session |
| `DownloadRuns.dfy` | what the server sent of a file, over all runs |
| `IrregularUploads.dfy` | the first ranges for which the 32-bit casts break exactness |
| `HandleRuns.dfy` | conservation of open files and buffers over all runs |
| `UploadClient.dfy` | the upload loop, against whatever is answered |
| `UploadProtocol.dfy` | upload client and server together, with and without lost messages |
| `DownloadReplies.dfy` | the download loop, against whatever is answered and against any honest server |
| `DownloadClient.dfy` | the download loop run against the server object |

The download loop has two readings. Line 424 of `src/bofwebclient.cpp` sets the start of the last
window to `NewRangeMax`, the last byte already received, where the upload loop (line 307) and the
server expect the byte after it. `LastStart.AsWritten` is the code, `LastStart.AsIntended` the other
reading; every statement about downloads says which one it is about. As written, a download of more
than one chunk ends with status 406 at this server; at a server that serves the range it is asked for, it
succeeds with one byte stored twice.

**The operation engine of a client `BofWebSocket`.** User threads program commands and collect
results by ticket; one loop, `V_OnProcessing`, pops, executes and reports them; libwebsockets calls
back while the loop services its context.

| file | what it holds |
| --- | --- |
| `Engine.dfy` | the state machine: user events, callbacks, and the phases of one iteration |
| `BofWebSocket.dfy` | the class with its mutable members and the loop; it refines the state machine |
| `Tickets.dfy` | where every ticket is, and which steps lose or double one |
| `Cancellation.dfy` | nothing accepted before an honoured cancellation is reported after it |
| `WriteOrder.dfy` | order, bytes and counter of the writes |
| `Connection.dfy` | connected, reported as connected, and able to connect again |
| `LinkRuns.dfy` | connected exactly by the ledger of what was established, closed, failed and executed |
| `Commands.dfy` | what each executed command changes, how it ends, and that it is reported once |
| `Reports.dfy` | a report that is due is told once |
| `ErrorRoute.dfy` | what becomes of a CONNECT whose connection fails |
| `EngineRuns.dfy` | these results about the object and its loop |
| `Scenarios.dfy` | runs into the states where a property fails |

**The rest.** `ClientRegistry.dfy` is the client map of a listening `BofWebSocket`; `GrpcCalls.dfy` the
self-spawning call machines of the asynchronous gRPC server; `CommandSplit.dfy` and `EscapedSplit.dfy`
the text splitters of the web application and of vcprj.py.

Properties that are false of the code as it stands are stated with the exact condition under which
they hold: `IrregularUploads.ExactIffRegular`, `UploadProtocol.UploadExact`,
`DownloadClient.Download`, `DownloadReplies.AnyServer`, `DownloadReplies.HonestServer`, `Tickets.TicketConservation`, `Cancellation.NoStaleTickets`,
`WriteOrder.WritesReported`, `Connection.ReportsAreTrue`,
`EscapedSplit.SplitInvertsJoin`, `CommandSplit.SplitArgInvertsJoin`.

## Model

| member | source | states |
|---|---|---|
| ContentRange.ParseContentRangeRequest | src/bofwebapp.cpp:157-181 | true exactly for texts the pattern and the number range allow, with the three numbers; otherwise every output keeps its value but those before the first number out of range, which are already overwritten |
| ContentRange.ParserLanguage | src/bofwebapp.cpp:157-175 | accepted are exactly the texts `bytes d-d/d` with three non-empty digit runs up to the platform limit; their values are returned, and no text has two readings |
| ContentRange.RoundTrip | src/bofwebclient.cpp:282-298 | for any three numbers up to any platform's unsigned long, the printed text fits the 256-byte buffer and parsing gives the numbers back |
| UpDown.UpDownServer.constructor | tests/src/ut_webapp.cpp:82-110 | a new server has no sessions, open files or buffers |
| UpDown.UpDownServer.TerminateUpDownTask | tests/src/ut_webapp.cpp:226-247 | closes the file, frees the buffer and erases the session, each only if there is one, and answers the status |
| UpDown.UpDownServer.Terminate | tests/src/ut_webapp.cpp:226-247 | ending the session a handler holds closes exactly its own file and buffer: everything stays owned and no other session changes |
| UpDown.UpDownServer.Fwrite | tests/src/ut_webapp.cpp:464-466 | stores the bytes at the session's file position, all or a first part on failure; an empty item fails |
| UpDown.UpDownServer.Fread | tests/src/ut_webapp.cpp:353-357 | reads exactly the asked bytes at the file position, which the buffer can hold, or nothing |
| UpDown.UpDownServer.StoreBody | tests/src/ut_webapp.cpp:461-498 | size check, write, 200 or 206 with the window that was stored, 500 or 507, end or advance of the session, as the specification's `Receive` says; other sessions unchanged |
| UpDown.UpDownServer.SendBody | tests/src/ut_webapp.cpp:352-380 | read, 200 or 206 with the window and the bytes sent, 500, end or advance of the session, as `Send` says; other sessions unchanged |
| UpDown.UpDownServer.WriteBack | tests/src/ut_webapp.cpp:475-483 | the session in the map gets the window after the moved bytes, clipped to the end of the data |
| UpDown.UpDownServer.FirstUpload | tests/src/ut_webapp.cpp:423-447 | on an unknown session: 406, 401, or a new session on a truncated file that stores the first body |
| UpDown.UpDownServer.NextUpload | tests/src/ut_webapp.cpp:448-499 | on a known session: 406 and the end of it unless the range is the expected one, the asserts on its kind, else the body is stored |
| UpDown.UpDownServer.FirstDownload | tests/src/ut_webapp.cpp:289-334 | on an unknown session: 406 with every session, file, handle and buffer as before unless the range is 0-max/0 with max > 0, else 401, or a new session whose buffer and window fit the asked chunk, with the first bytes |
| UpDown.UpDownServer.NextDownload | tests/src/ut_webapp.cpp:335-381 | on a known session: 406 and the end of it unless the range is the expected one, the asserts on its kind, else the next bytes |
| UpDown.UpDownServer.PostUpload | tests/src/ut_webapp.cpp:383-501 | the whole handler takes the system step of an upload request: answer, files and sessions, and every open file and buffer stays owned by one session |
| UpDown.UpDownServer.GetDownload | tests/src/ut_webapp.cpp:249-382 | the whole handler takes the system step of a download request, with the same ownership; a 406 to an unknown session leaves every session, handle and buffer as it was |
| UpDown.UpDownServer.Requests | tests/src/ut_webapp.cpp:249-501 | any sequence of requests takes the object through the run of the specification, with the same answers |
| UpDown.OwnedAfterOpen | tests/src/ut_webapp.cpp:427-440 | opening a file for a new session keeps every file and buffer owned by exactly one session and changes no other session |
| UpDown.OwnedAfterTermination | tests/src/ut_webapp.cpp:229-243 | so does ending a session |
| UpDown.NothingShared | tests/src/ut_webapp.cpp:82-110 | two sessions never share an open file or a buffer |
| UpDown.OneToOne | tests/src/ut_webapp.cpp:226-247 | as many open files as sessions, as many buffers as sessions that own one |
| HandleRuns.ServeAll | tests/src/ut_webapp.cpp:226-501 | handle conservation: after any requests to a fresh server that use no id in both directions, no assert has failed, open files and sessions correspond one to one, each download owns one buffer of its chunk size, no upload any, and nothing else is open |
| TransferRuns.ExactReceive | tests/src/ut_webapp.cpp:461-498 | a body that is accepted is exactly the window, and the next window starts where it ends or the data is complete |
| TransferRuns.ExactWindows | tests/src/ut_webapp.cpp:419-500 | when every range that opens an upload is regular, over any requests every live upload has 0 < min <= max < size with the largest window the chunk allows, and min is the number of bytes written through its handle, which are the bytes accepted |
| TransferRuns.NarrowIs | tests/src/ut_webapp.cpp:454 | going from chunk to chunk, the 32-bit size is the whole window or nothing at all, exactly if the rest is below 2^32 or its low 32 bits are a multiple of the chunk |
| TransferRuns.ExactAnswers | tests/src/ut_webapp.cpp:452-498 | when every range that opens an upload is regular, an accepted request carries exactly the bytes after those accepted before; 200 is answered exactly when they reach the announced size, and exactly then the session ends |
| IrregularUploads.IrregularFails | tests/src/ut_webapp.cpp:435-454 | for every opening range that is not regular, a run that opens only with it ends in an accepted body shorter than its range |
| IrregularUploads.ExactIffRegular | tests/src/ut_webapp.cpp:421-498 | so for an opening range 0-max/size, with c = max + 1: accepted bodies are exactly their ranges over every run that opens with it alone, exactly if c is a multiple of 2^32, or c < 2^32 and either size < 2^32 + c or the low 32 bits of size - c are a multiple of c |
| IrregularUploads.OneByteMissing | tests/src/ut_webapp.cpp:454-483 | the smallest input: 2^32 + 3 bytes in chunks of two; of the second chunk one byte is taken, 206 answered, and the window moved by two |
| IrregularUploads.OneByteIsAll | tests/src/ut_webapp.cpp:435-471 | one request for all of 2^32 + 1 bytes: one byte is taken and 200 answered |
| TransferRuns.DirectionsKept | tests/src/ut_webapp.cpp:335-452 | when no id is used in both directions, no assert of the handlers fails in any run |
| TransferRuns.ErrorEnds | tests/src/ut_webapp.cpp:226-498 | any error answered to an understood request, upload or download, ends its session |
| TransferRuns.EndedForGood | tests/src/ut_webapp.cpp:289-447 | once gone, a session stays gone and none of its requests is accepted, upload or download, until one has the numbers of a first request: 0-max/size with 0 < max < size for an upload, 0-max/0 with max > 0 for a download; whatever other sessions do meanwhile |
| Statuses.NotUnderstood | tests/src/ut_webapp.cpp:262-280 | a path with two dots gets 401 and a header that is none 400, and nothing else happens |
| Statuses.WrongKind | tests/src/ut_webapp.cpp:335-452 | a request of the other kind than its live session fails an assert |
| Statuses.UnknownUpload | tests/src/ut_webapp.cpp:421-498 | an upload of an unknown id: 406 unless 0-max/size with 0 < max < size, 401 if the file does not open, 500 unless the body has max + 1 bytes cut to 32 bits, 507 if it cannot be written, else accepted; no error leaves a session |
| Statuses.KnownUpload | tests/src/ut_webapp.cpp:448-499 | an upload of a live session: 406 unless it asks for the window of the session, 500 unless the body has its length, 507 if it cannot be written, else accepted; every error ends the session |
| Statuses.UnknownDownload | tests/src/ut_webapp.cpp:289-334 | a download of an unknown id: 406 with nothing changed unless 0-max/0 with max > 0, 401 without the file, 500 with nothing changed if it is empty or cannot be read or max + 1 cut to 32 bits is 0, else accepted |
| Statuses.KnownDownload | tests/src/ut_webapp.cpp:335-381 | a download of a live session: 406 unless it asks for the window of the session, 500 if the bytes cannot be read, both ending it, else exactly the bytes at its position |
| DownloadRuns.SentFromTheStart | tests/src/ut_webapp.cpp:249-382 | when no id is used in both directions and nobody uploads to the files of a download, what it was sent since it opened is their bytes from 0 on: at all times while it is live, and after the answer that ends it |
| TransferRuns.UploadAppends | tests/src/ut_webapp.cpp:464-466 | an accepted body is appended to the bytes the session's file holds; a first one replaces the file |
| TransferRuns.StoredExactly | tests/src/ut_webapp.cpp:419-500 | if every opening range is regular, no id is used in both directions and no other session uploads to its paths, the file of an upload is at all times exactly the accepted bytes, also after the answer that ends it with success |
| TransferRuns.LocalStep | tests/src/ut_webapp.cpp:249-501 | the outcome of a request depends on no file but that of its session |
| TransferRuns.OtherFilesKept | tests/src/ut_webapp.cpp:249-501 | an upload changes only the file of its session, a download none |
| TransferRuns.SessionIsolation | tests/src/ut_webapp.cpp:249-501 | for any interleaving in which no id is used in both directions, a session whose paths no other session uploads to gets the same answers, session state and file bytes as if it ran alone |
| UploadClient.Upload | src/bofwebclient.cpp:237-341 | the loop makes the posts and returns the verdict of the transfer as the caller sees it, reading within its chunk buffer; each post but the last was answered with 206 and exactly its range, and true is returned exactly if the posts carry the whole file and the last was answered with 200 and exactly its range |
| UploadClient.NextPost | src/bofwebclient.cpp:278-286 | what is read for a window and posted is that part of the file with its range; at the end of the file the read fails |
| UploadClient.NextWindow | src/bofwebclient.cpp:307-312 | the next window starts after the last and is clipped to the end of the file, in 64-bit arithmetic |
| UploadClient.AnyServer | src/bofwebclient.cpp:276-328 | against any statuses and headers: at most one post per chunk, none larger than the chunk, the posted bodies are a prefix of the file, and true is returned only if they are the whole file, after exactly one post per chunk |
| UploadClient.RepliesFollowed | src/bofwebclient.cpp:287-320 | against any replies: no post follows a missing reply, another status than 206 or another range than the one posted; every 206 with that range is followed, up to the end of the file; success exactly if the last post ends the file and got 200 with its range |
| UploadClient.UploadMeans | src/bofwebclient.cpp:276-328 | so success means, in the replies alone, 206 with its own range for every post but the last, 200 with its own range for the last, and the whole file posted |
| UploadClient.ChunksRoundUp | src/bofwebclient.cpp:276-328 | the number of chunks is the size divided by the chunk, rounded up |
| UploadProtocol.ChunkVerdict | src/bofwebclient.cpp:285-320 | one post over a link that may lose it or its reply: going on means both sides stand at the next offset, finished means the file is stored and the session gone; on a healthy link it is refused exactly if the server computes another size |
| UploadProtocol.WhileOthersAsk | tests/src/ut_webapp.cpp:249-501 | any requests of other sessions that do not upload to the file leave the session of a transfer and its file as they are |
| UploadProtocol.UploadIsSafe | src/bofwebclient.cpp:287-320 | with any messages lost, any disk failures and any requests of other sessions between the posts, none of them uploading to the same file before or meanwhile: true implies that the stored file equals the source and the session is gone |
| UploadProtocol.CastsAgreeBelow | tests/src/ut_webapp.cpp:454 | the 32-bit cast gives the right size for every chunk of a rest exactly if the rest is below 2^32 |
| UploadProtocol.UploadExact | src/bofwebclient.cpp:259-328 | fault-free, on a fresh session and a path without `..`, to a file no live session uploads to, with other sessions asking in between for other files and no id in both directions, with D >= 1 bytes and effective chunk c: true exactly if D >= 2, c >= 2 and D < 2^32 + c; then one post per chunk was made, the stored file is the source and the session is gone |
| DownloadReplies.Take | src/bofwebclient.cpp:385-452 | whatever comes back for a range: it is taken exactly if it is 200 or 206, its header parses with a size, its window is the one asked (or, the first time, ends with the file), its body is that long and not empty, and it is stored; then the window moves on, else it stays |
| DownloadReplies.MovedFollows | src/bofwebclient.cpp:418-426 | the next window starts after the last, is as long and is cut at the end of the file, in both readings of line 424 |
| DownloadReplies.AnyServer | src/bofwebclient.cpp:371-463 | against any answers: every request but the last was answered with 206 and its window, and each asks for the window after the last; exactly the bodies of those answers are stored, in order; the loop ends at the first other answer, with true exactly if that is 200 with its window and at most one further window is missing |
| DownloadReplies.HonestServer | src/bofwebclient.cpp:378-463 | against any server that sends the bytes it names and says 200 exactly at the end: until it succeeds, what is stored is a proper prefix of the file; once it has succeeded, it is the file exactly if the last window starts as intended or there was only one |
| DownloadReplies.RepeatedByte | src/bofwebclient.cpp:420-426 | the smallest input: three bytes in chunks of two, as written: success with the second byte stored twice |
| DownloadReplies.EarlyOk | src/bofwebclient.cpp:455-459 | a server that says 200 after two of three bytes: success without the third |
| DownloadClient.FirstGet | tests/src/ut_webapp.cpp:291-334 | the first request brings the first chunk exactly if it asks for at least two bytes |
| DownloadClient.NextGet | tests/src/ut_webapp.cpp:337-381 | a request for the expected window brings its bytes, as many as the 32-bit cast says |
| DownloadClient.WrongGet | tests/src/ut_webapp.cpp:342-350 | any other range is refused with 406 and ends the session |
| DownloadClient.WindowMoves | src/bofwebclient.cpp:420-426 | the arithmetic of the window update, in both readings of line 424 |
| DownloadClient.Round | src/bofwebclient.cpp:380-462 | one iteration against the server object: what it keeps are the bytes at its offset, and both sides stand at the next one; as written, the last of several chunks is refused with 406 |
| DownloadClient.Turn | src/bofwebclient.cpp:378-463 | the same after any requests of other sessions that upload to other files |
| DownloadClient.Download | src/bofwebclient.cpp:343-463 | with any faults and any requests of other sessions in between, none uploading to the file: what is written is a prefix of the file, and true means the whole file and no session left. Fault-free, with no id in both directions, D >= 1 and a path without `..`: as intended, true exactly if c >= 2 and D < 2^32 + c; as written, true exactly if c >= 2 and D <= c, and for c < D < 2^32 + c it ends with 406 after exactly (ceil(D/c) - 1) * c bytes. What it returns and stores is in any case what its answers make of it |
| WebSocketEngine.BofWebSocket.constructor | src/bofwebsocket.cpp:293-340 | a new engine: empty queues of the sizes the parameters give, ticket 1, no context |
| WebSocketEngine.BofWebSocket.ProgramWebSocketOperation | src/bofwebsocket.cpp:73-93 | a ticket is taken in any case; the command is queued with it, its time-out and the time, and the ticket returned, exactly if the queue has room |
| WebSocketEngine.BofWebSocket.GetWebSocketOperationResult | src/bofwebsocket.cpp:376-386 | takes the oldest result if there is one |
| WebSocketEngine.BofWebSocket.V_OnProcessing | src/bofwebsocket.cpp:1282-1686 | the loop, with any events of other threads between its steps, makes a run of the state machine and stops only on exit or a failed assert |
| EngineRuns.RunEngine | src/bofwebsocket.cpp:1282-1686 | about the fields of a new engine after any iterations: connected, context and socket are what the ledger of established, closed and failed connections and executed commands says; it has stopped exactly if a send met a request to end or an EXIT executed before it; connected means a context and a socket; every accepted ticket is always in exactly one place exactly if every step was fair; the write queue is what is left of the accepted writes in order, and the counter is how many bytes lws_write got; the results were reported in order exactly if none was dropped; connection reports were true when due exactly if every check was harmless, and then also when pushed |
| Tickets.CoherentStep | src/bofwebsocket.cpp:1302-1681 | as long as nothing is popped while an operation is pending, the current operation and the pending result belong together |
| Tickets.PendingUntil | src/bofwebsocket.cpp:1563-1645 | an operation stays pending exactly while in time and waiting for the connection or for data; otherwise its result is sent with its ticket, timed out exactly if late, also after a reset with the context |
| Tickets.ExecutedPlaces | src/bofwebsocket.cpp:1320-1561 | an executed command is in flight or in the write queue, and in both exactly if the writable request failed after the push |
| Tickets.FetchPlaces | src/bofwebsocket.cpp:1302-1561 | a fetch loses the popped ticket exactly if an operation is pending, doubles it exactly if the writable request fails, and moves no other |
| Tickets.CallbackPlaces | src/bofwebsocket.cpp:1007-1077 | a completed write moves to the results, or is lost exactly if they are full |
| Tickets.SendPlaces | src/bofwebsocket.cpp:1669-1673 | a report moves the ticket in flight to the results, or loses it exactly if they are full |
| Tickets.ConservedIffFair | src/bofwebsocket.cpp:1302-1681 | from a sound state a step keeps every accepted ticket in exactly one place exactly if it is fair: no pop while pending, no result-queue overflow, a positive writable request, no reset of queues in use |
| Tickets.TicketConservation | src/bofwebsocket.cpp:1302-1681 | over every run, with any commands: at all times every ticket accepted since the last honoured cancellation is in exactly one of parameter queue, flight, write queue, result queue and collected, exactly if every step of the run is fair |
| Tickets.AtMostOneResult | src/bofwebsocket.cpp:1302-1681 | in a fair run no ticket has two results and no result has a ticket that was not accepted |
| Cancellation.HonouredIsSince | src/bofwebsocket.cpp:1647-1667 | right after the cancel step no queue, current operation or pending result holds an earlier ticket; nothing is queued or owed, the connection and its socket are given up and the context is kept |
| Cancellation.SinceStep | src/bofwebsocket.cpp:1302-1681 | a step keeps that so exactly if it is not a check that finds a LISTEN popped over a pending operation while connected, with an old number in the variable for its ticket |
| Cancellation.NoStaleTickets | src/bofwebsocket.cpp:1647-1680 | over every run after a cancel step, fair or not: at all times every ticket anywhere in the engine was given out after it, exactly if no LISTEN misfires in that way |
| Cancellation.CollectedIsFresh | src/bofwebsocket.cpp:1647-1680 | then the next result collected after it carries none of the tickets given out at any time before |
| Cancellation.WithoutListen | src/bofwebsocket.cpp:1568-1580 | if no LISTEN is programmed after it, none misfires |
| Scenarios.MisfireHappens | src/bofwebsocket.cpp:1302-1580 | a run from the start that does: a cancellation, then CONNECT, READ and LISTEN; the ticket accepted before the cancellation is about to be reported again |
| WriteOrder.SilentStep | src/bofwebsocket.cpp:1615-1619 | the loop itself never reports a write as done |
| WriteOrder.FlowCalled | src/bofwebsocket.cpp:1007-1077 | a completed write appends its bytes to those handed over and its size to the counter; its success is reported exactly if the result queue has room |
| WriteOrder.LineFetched | src/bofwebsocket.cpp:1302-1561 | a fetch moves the first waiting command to the end of the queued writes or out of the line, so acceptance order is kept |
| WriteOrder.OrderedWrites | src/bofwebsocket.cpp:1007-1077 | over every run, with no hypothesis: since the last honoured cancellation, the queued writes are accepted ones with their bytes in ticket order, those done are a first part, lws_write got exactly their bytes in order, and the transmit counter is how many |
| WriteOrder.WritesReported | src/bofwebsocket.cpp:1007-1077 | at all times the write results come out in that order, one for each write done, and the counter is the sum of their sizes, exactly if no completed write finds the result queue full and no reset meets an uncollected success |
| WriteOrder.OverflowLosesResult | src/bofwebsocket.cpp:1059-1077 | a write completed on a full result queue is sent and counted, and its result is lost |
| Scenarios.OverflowHappens | src/bofwebsocket.cpp:1007-1077 | a run from the start that comes there: three writes done while nobody collects |
| Connection.AlwaysLinked | src/bofwebsocket.cpp:993-1454 | over every run, connected implies a live context and a set socket, and without a context nothing is left of the link |
| Connection.HonestStep | src/bofwebsocket.cpp:1563-1674 | from an honest state a step stays honest exactly if it is no check of a pending operation whose report would be false, which depends on the command popped over it, its lateness, the connection and the data received |
| Connection.ReportsAreTrue | src/bofwebsocket.cpp:1378-1674 | over every run: at all times a CONNECT success is only about to be reported while connected, and a CONNECT time-out or a DISCONNECT that passed its state check with no context, exactly if every check of a pending operation is harmless in that sense |
| Connection.PushedReportsAreTrue | src/bofwebsocket.cpp:1669-1683 | then every CONNECT success that is pushed leaves the engine connected unless the loop stops, and every pushed CONNECT time-out or passing DISCONNECT leaves it without context |
| Connection.NoOverlapIsHonest | src/bofwebsocket.cpp:1302-1674 | which they all are in runs that pop nothing while an operation is pending |
| Connection.OverlapMisreports | src/bofwebsocket.cpp:1302-1674 | a DISCONNECT popped in time over a pending CONNECT: that CONNECT is reported as done although nothing is connected, and the DISCONNECT is in no queue, not in flight and in no result any more |
| Scenarios.OverlapHappens | src/bofwebsocket.cpp:1302-1594 | a run from the start that comes there: a DISCONNECT programmed right after a CONNECT |
| Connection.StaysDown | src/bofwebsocket.cpp:1378-1454 | the engine stays without context until a CONNECT is executed |
| Connection.ConnectsAgain | src/bofwebsocket.cpp:1378-1441 | the next CONNECT passes the context and connection guards: it is refused exactly for a key of illegal length |
| LinkRuns.LinkIsLedger | src/bofwebsocket.cpp:957-1686 | over every run from the start: connected exactly if a successful establishment of the bound socket came after the last close, connection error, executed DISCONNECT, late CONNECT, honoured cancellation, disowning LISTEN and end of the loop; a context exactly if the last one created was not destroyed; the socket is the one last asked for or bound |
| LinkRuns.RefusedUnlessUp | src/bofwebsocket.cpp:1462-1551 | over every run, an executed READ or WRITE is refused as not connected exactly if the ledger says that the connection is not up |
| LinkRuns.RefusedAfterClose | src/bofwebsocket.cpp:1219-1551 | in any state in which the peer closes the connection: until one is established again, whatever else happens, every READ and WRITE is refused as not connected and nothing is queued |
| LinkRuns.AbortsIff | src/bofwebsocket.cpp:993-1077 | the loop aborts exactly if another connection than the bound one is established or libwebsockets takes another number of bytes than the write has |
| Commands.Begins | src/bofwebsocket.cpp:1316-1560 | whatever is executed: it is current with its timer restarted, has a result with its kind, its ticket and the time it waited, is pending exactly without an error, and only an EXIT asks the loop to end |
| Commands.Disconnects | src/bofwebsocket.cpp:1443-1454 | a DISCONNECT is refused exactly if there is neither a connection nor a context; otherwise nothing is left of the link and it is pending |
| Commands.Connects | src/bofwebsocket.cpp:1378-1441 | a CONNECT is refused exactly if there is a connection or a context or its key has no or more than 127 characters; without a context created nothing is left of the link; it is pending exactly with a context and a socket |
| Commands.Reads | src/bofwebsocket.cpp:1462-1490 | a READ is refused exactly without a connection or without room, each with its status, and changes nothing else |
| Commands.Writes | src/bofwebsocket.cpp:1492-1551 | a WRITE is refused exactly without a connection, without data or without room in the queue, each with its status; otherwise it is queued as it is with its time-out and the time, also if the writable request fails |
| Commands.ListensOrExits | src/bofwebsocket.cpp:1339-1460 | a client refuses a LISTEN, an EXIT is cancelled, and neither changes the link or the writes |
| Commands.WriteCompletes | src/bofwebsocket.cpp:1007-1077 | a queued write that is taken whole is reported as done with its ticket, its size and its time, if there is room |
| Commands.CommandReported | src/bofwebsocket.cpp:1302-1683 | whatever command is executed: after any fair run that honours no cancellation its report is still owed and no result has its ticket, or exactly one has, with its kind and one of the endings its refusals allow: a refusal only the refused status, a pending operation done or timed out, a queued write done |
| Commands.DisconnectReported | src/bofwebsocket.cpp:1443-1683 | an accepted DISCONNECT leaves nothing of the link and is reported in the same pass of the loop: past the send, exactly one result has its ticket, done or timed out |
| Commands.PassBegins | src/bofwebsocket.cpp:1302-1319 | the context is serviced if there is one, else the current operation is reset; a command popped over a pending operation only becomes current |
| Commands.PassEnds | src/bofwebsocket.cpp:1669-1686 | a send pushes what is due with the time it took, if there is room, and ends the loop with nothing left of the link exactly if something told it to |
| Commands.ExitStops | src/bofwebsocket.cpp:1456-1686 | over every run: the loop has stopped exactly if a send met a request to end or an EXIT executed before it, whatever else was queued |
| Reports.DueIsTold | src/bofwebsocket.cpp:1669-1673 | a report that is due is, after any fair run that honours no cancellation, still due without a result or in exactly one result |
| ErrorRoute.OrphanStep | src/bofwebsocket.cpp:1302-1674 | a CONNECT whose context is gone stays pending over every step, whatever is programmed, until a check makes its time-out due |
| ErrorRoute.ConnectionErrorReported | src/bofwebsocket.cpp:1246-1674 | after a connection error while a CONNECT is pending, over every fair run that honours no cancellation: it is still pending, or its time-out is about to be sent, both without any result, or exactly one result has its ticket and is that time-out; after the second check it is no longer pending |
| ClientRegistry.AlwaysValid | src/bofwebsocket.cpp:629-704 | over every run of callbacks with arbitrary keys: never more clients than allowed, no two keys for one connection, every client is an open connection, and a connection is flagged as connected exactly if it is a client |
| ClientRegistry.FirstIsOnly | src/bofwebsocket.cpp:691-700 | then the first entry that matches is the only one, so erasing it erases all |
| ClientRegistry.ValidGone | src/bofwebsocket.cpp:1232-1236 | a closed connection leaves no trace in the map |
| ClientRegistry.AdmittedExactly | src/bofwebsocket.cpp:957-986 | an established connection becomes a client exactly if its buffers are set, no other connection is bound, the limit is not reached and its key is free; then it is one under its key, and no other client changes |
| ClientRegistry.ClientCollection.AddClient | src/bofwebsocket.cpp:629-658 | refuses on a full map or a known key, with the flag each leaves, else adds the flagged session |
| ClientRegistry.ClientCollection.RemoveClient | src/bofwebsocket.cpp:684-704 | stopping at the first match in any order of the map removes every entry of the connection and no other |
| ClientRegistry.ClientCollection.Callback | src/bofwebsocket.cpp:957-1236 | each callback takes the step of the registry and keeps it valid |
| GrpcCalls.CallOwnership | include/bofwebrpc/bofgrpc.h:97-136 | over every run in which each posted operation succeeds: exactly one machine in PROCESS, one outstanding tag per live machine and no other, no event reaches a deleted machine, and created minus deleted is one plus those in FINISH |
| GrpcCalls.AbortsExactly | include/bofwebrpc/bofgrpc.h:276-299 | over every run, the server has aborted exactly if an operation failed or the queue was shut down |
| GrpcCalls.GrpcServer.New | include/bofwebrpc/bofgrpc.h:90-111 | a new machine runs to PROCESS and posts its tag |
| GrpcCalls.GrpcServer.Proceed | include/bofwebrpc/bofgrpc.h:97-136 | PROCESS spawns a machine, posts its own tag again and finishes; FINISH deletes itself |
| GrpcCalls.GrpcServer.HandleRpc | include/bofwebrpc/bofgrpc.h:276-301 | the loop makes such a run until an event fails or the queue is shut down; every tag it casts is a live machine |
| CommandSplit.SplitCmdAndArg | src/bofwebapp.cpp:182-206 | true exactly if the text is word characters, an opening parenthesis, text without line breaks and a closing one; then these are the command and the argument, otherwise both outputs keep their values |
| CommandSplit.CommandLanguage | src/bofwebapp.cpp:186-202 | accepted are exactly word characters, an opening parenthesis, text without line breaks, a closing one; one decomposition only |
| CommandSplit.SplitArg | src/bofwebapp.cpp:207-219 | the stream loop gives the full comma split without its last item if that is empty |
| CommandSplit.SplitArgInvertsJoin | src/bofwebapp.cpp:207-219 | for items without commas, splitting inverts joining exactly if the list is empty or its last item is not |
| EscapedSplit.SplitWithEscapeChar | vcprj/vcprj.py:27-45 | for any line, one item more than unprotected separators; each item is the text between two of them with every protecting backslash removed and every other character kept in order |
| EscapedSplit.CutsAreAll | vcprj/vcprj.py:33-40 | the places where a line is cut are all its separators with an even number of backslashes directly before them, in order, and nothing else |
| EscapedSplit.SplitIsPieces | vcprj/vcprj.py:27-45 | for any line, item k is the text between the cuts k - 1 and k without the backslashes that have an even number of backslashes before them |
| EscapedSplit.SplitInvertsJoin | vcprj/vcprj.py:24-45 | escaping, joining and splitting gives any non-empty list back, exactly if the separator is not the backslash or the list has one item |

## Left out

- DownloadClient.Download: what a failing local write leaves in the file.
- DownloadReplies.AnyServer: the last clause, on success, speaks of windows below 2^64 - 2^32 of fewer than 2^32 bytes, the ones the casts of the client count.
- UploadClient.Upload: the empty file, for which the loop reads a result that was never set, and a failing allocation.
- UpDown.UpDownServer.PostUpload: the comparison of an unset map iterator on the 400 and 401 paths is taken as "not found"; path parameters that are missing raise an exception that is not modelled; the model answers nothing more once an assert has failed.
- UpDown.UpDownServer.GetDownload: the same; a failing allocation is left out.
- WebSocketEngine.BofWebSocket.constructor: a queue or an event that cannot be created.
- WebSocketEngine.BofWebSocket.ProgramWebSocketOperation: the flag behind IsWebSocketOperationPending and the wake-up of the service call, on which no other decision depends; the push fails at once when the queue is full, where the source waits; the caller's write buffer is taken when the command is programmed, so the caller has to leave it alone until the engine has copied it.
- WebSocketEngine.BofWebSocket.ResetWebSocketOperation: the same flag and the cancel event.
- WebSocketEngine.BofWebSocket.LwsCallback: receive-side reassembly lives in a buffer that is not part of this model; what a read gets is a parameter. A callback is a step of its own and comes only while the loop services the context; the callbacks of the user and the return codes are left out.
- WebSocketEngine.BofWebSocket.Writeable: the transmit counter is unbounded, and the branches for a partial or failed write are behind the assert that stops the process.
- ClientRegistry.ClientCollection.Callback: the connection flag of the listening engine as a whole, and the callbacks of the user.
- GrpcCalls.GrpcServer.HandleRpc: the request and reply themselves.
- Each handler, each user call and each step of the loop is atomic: data races, locking and file buffering are left out, as is the limit of HTTP on payloads.
- The transfer runs on a 64-bit Unix, where unsigned long has 64 bits and `ftell` reports sizes below 2^63; the parser itself is modelled for any limit.
- The containers, the events and the clock of bofstd are not part of this model: queues are bounded FIFOs that refuse when full, tickets are fresh, the clock starts above zero and does not go back, a failed BOF_ASSERT stops the process.
- libwebsockets, httplib, gRPC, OpenSSL and the sockets are nondeterministic answers and events. libwebsockets establishes and closes each connection once, with zeroed data of its own.
- The listening mode of the operation engine: its LISTEN stays pending after a cancellation and its ticket is used again. In client mode LISTEN is modelled; the ticket it reads is a parameter.
- The blocking wrappers Connect, Write, Read and Disconnect: they program one operation and collect results, dropping those of others, until its ticket comes; the status they return is that of the collecting, not of the operation.
- RemoveClient by key has no caller; the key check in the ADD_HEADERS callback only refuses earlier what AddClient refuses.
- Logging, configuration, TLS, CORS, routing, Benchmark, Run and Stop, the CMake files and the template expansion of vcprj.py.
