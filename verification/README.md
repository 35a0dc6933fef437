# Verified model of the UDP file transfer

A client uploads files to, or downloads them from, a server over UDP, with one of two hand-written protocols:
go-back-N and stop-and-wait. This project models both protocols, the retry engine and the wire format under them, and
proves what they guarantee, and where the code stops short of the textbook, what exactly it does not guarantee.

`dafny verify dfyconfig.toml` checks everything.

How the pieces fit together:

- `GoBackN.dfy` holds the go-back-N endpoints as step functions on values. `GbnEndpoints.dfy` holds the sender and
  receiver objects, with their in-place counters, and proves that they take those steps. The client's and the
  server's sender are one class whose `side` selects the lines in which the two differ; the two receivers run the
  same code. The offset of the labels is the very counter object the caller passed in; only the client steps it.
- `GbnSystem.dfy` puts both endpoints and the network together. The network is the set of all datagrams ever sent, so
  loss, duplication and reordering need no steps of their own; timeouts happen at any time. An inductive invariant over
  both endpoints and everything in flight is kept by every step. `GbnConfiguration.dfy` and `GbnDownloadStart.dfy`
  are the exchanges before the data phase, clients that give up included, and prove that those which finish end where it
  begins. `GbnUpload.dfy` joins configuration and data phase into whole uploads.
- `GbnBehaviour.dfy` and `GbnWire.dfy` say what an observer of the endpoints sees: which packet is sent when and with
  which fields, what a packet heard moves and how it is answered, and that all of it survives the wire.
- `GbnResults.dfy`, `GbnProgress.dfy`, `GbnRefinement.dfy` and `GbnCounterexamples.dfy` draw the conclusions.
- `StopAndWait.dfy` is the alternating-bit protocol with both ends repeating their last packet, and with clients that
  give up. Its channels are first-in first-out and may lose and duplicate; without that order one bit is not enough, as
  the runs of `OrderIsNeeded` show. `SawBehaviour.dfy` is what an observer sees; `SawResults.dfy`, `SawProgress.dfy` and
  `SawCounterexamples.dfy` draw the conclusions. `RetryEngine.dfy` is the pair of nested retry loops, `SawEndpoints.dfy`
  the upload run on top of them.
- `Cleanup.dfy`, `GbnCleanup.dfy` and `SawCleanup.dfy` say what the end of an upload, good or bad, leaves on the server's
  disk.
- `PacketFormat.dfy`, `Chunking.dfy` and `SequenceNumbers.dfy` are the wire format, the cutting of files and the
  counters.

Points at which the code differs from the textbook protocol, or from what its messages claim:

- An acknowledgement numbered k is sent both when chunk k has just been stored and when chunk k is still expected. The
  sender reads both as "everything before k arrived", which is sound. An acknowledgement with the last number therefore
  proves that the last chunk arrived exactly if that was the only chunk to send (`OnlyFinProvesDelivery`).
- The server's sender tests for the last chunk right after an acknowledgement, before sending again. It is sure to send
  its last chunk exactly for files of at most eleven chunks, a window and the one sent before it (`LastChunkIsSent`).
  For every longer file it can leave its loop before (`EarlyExit`); its closing acknowledgement then carries the number
  of the missing chunk, which the client takes for that chunk (`EarlyExitDerails`, `DerailedForever`).
- A delayed copy of the filename, which is neither acknowledgement nor FIN, stops the server's sender whenever it
  listens at all, that is, for files of more than two chunks (`SenderStopsOnlyOnNeither`, `LateRequestStopsDownload`);
  and the filename is in flight in every download (`FilenameStopsDownload`). The branch of that method that would read
  an unset duration is never reached.
- A client that loses the connection still sends an acknowledgement and a FIN, both with its next number and without
  data, and the server looks at numbers only. If the server has accepted an item whose acknowledgement was lost, it
  takes one of the two for the next item: for a size of zero, or, the FIN, for the end of the file. A server that reports
  an upload as completed is therefore sure to have the whole file exactly if the client did not give up or the file is
  empty, in stop-and-wait mode during the whole upload and in go-back-N mode while it is configured (`GivingUpIsUnsafe`
  in both `SawCounterexamples` and `GbnUpload`). The file is a prefix of the client's in any case (`SawUploadSafety`,
  `UploadServerSafety`). Downloads are not affected by clients that give up (`SawDownloadSafety`,
  `FirstChunkStartsDownload`).
- An empty file has no chunk and so no FIN. In stop-and-wait mode the client then waits a second time for the bit of the
  size, the server's old acknowledgement answers it, and the client reports completion while the server waits on
  (`CompletionNeedsAChunk`); the client's closing acknowledgement is then taken for an empty chunk. In go-back-N mode
  nothing answers the client's last wait (`EmptyUploadIsNeverAnswered`), and it is its goodbye that ends the upload
  (`GoodbyeEndsEmptyUpload`).
- The server records the name and size of an upload only after both are accepted, but creates the file as soon as the
  name is: every failure in between leaves an empty file behind (`ConfigurationDamage`). In the data phase go-back-N
  leaves the whole file or none if the client did not give up before (`SurvivingFileIsWhole`), and otherwise an empty
  one can stay (`UploadDamage`). Stop-and-wait leaves part of the file when a wait ends on a wrong sequence number,
  whose handler treats the state as recoverable, and after a client has given up in every way it can end
  (`StopAndWaitDamage`).

## Model

| member | source | states |
|---|---|---|
| Chunking.SplitIsLossless | src/lib/client/go_back_n_sender_client.py:180-192 | for every file and chunk size, the chunks are as many as the ceiling formula says, all full but a non-empty last one, and add up to the file |
| Chunking.SplitFileInChunks | src/lib/client/go_back_n_sender_client.py:180-192 | the read loop yields exactly the first chunks, as many as the size announces, of what is left in the file |
| Chunking.UnwindAndSplitFileInChunks | src/lib/server/go_back_n_sender_server.py:195-211 | the same from one chunk earlier, and an error exactly when the rewind would pass the start of the file |
| Chunking.FirstReadThenSplit | src/lib/server/client_connection/client_connection_gbn.py:123-154 | after the hand-read first chunk the rewound list is again the whole file's, and its head is that chunk |
| Chunking.FileCursor.Unwind | src/lib/common/file_handler.py:86-87 | moves the cursor back, or reports the error and leaves it |
| Chunking.ChunkCountOfUpload | src/lib/client/protocol.py:309-310 | a file whose size fits four bytes has about three million chunks at most |
| SequenceNumbers.GbnCountsUntilMaximum | src/lib/common/sequence_number.py:17-21 | n steps add n exactly as long as the maximum is not passed |
| SequenceNumbers.SawCountsModuloTwo | src/lib/common/sequence_number.py:11-15 | the stop-and-wait counter counts modulo two |
| SequenceNumbers.SequenceNumber.Step | src/lib/common/sequence_number.py:23-27 | the in-place step of either protocol |
| PacketFormat.SawFieldsOnWire | src/lib/common/packet/packet.py:84-116 | which fields of a stop-and-wait packet reach the other side, for every packet that can be packed |
| PacketFormat.GbnFieldsOnWire | src/lib/common/packet/packet.py:119-153 | which fields of a go-back-N packet reach the other side, for every packet that can be packed |
| PacketFormat.SawLayout | src/lib/common/packet/packet.py:83-116 | byte by byte: the bit, the three flags, port and length with the higher byte first, then the data |
| PacketFormat.GbnLayout | src/lib/common/packet/packet.py:118-153 | byte by byte: tag and flags, port, and length, sequence and acknowledgement number in four bytes each, then the data |
| PacketFormat.ChunksFillTheMtu | src/lib/common/constants.py:37-53 | in both modes a datagram with its headers fits 1500 bytes if and only if its data is no longer than a chunk |
| PacketFormat.ComposedPacketParsesBack | src/lib/common/packet/packet.py:234-254 | parsing a composed packet returns it, with its protocol, if and only if its data is no longer than announced and, in stop-and-wait, its number is one bit |
| PacketFormat.ParsedBytesComposeBack | src/lib/common/packet/packet.py:156-231 | composing any parsed byte string returns the same bytes if and only if the string is canonical |
| GbnEndpoints.GoBackNSender.constructor | src/lib/client/go_back_n_sender_client.py:22-46 | the counters of the caller are stepped in place, the label offset being one of them |
| GbnEndpoints.GoBackNSender.SendPacketsInWindow | src/lib/client/go_back_n_sender_client.py:93-131 | sends what the window function says and returns the last packet sent, or none |
| GoBackN.WrappedWindowNeverFills | src/lib/client/go_back_n_sender_client.py:101-131 | with more than two billion chunks and the window past the maximum, the send loop finds another chunk to send after any number of steps |
| GbnEndpoints.GoBackNSender.ProcessPacket | src/lib/server/go_back_n_sender_server.py:134-193 | every branch of the two waits after the socket has answered, including the two in which the server's fails; the FIN flag is set if and only if the packet is a FIN and no acknowledgement |
| GbnEndpoints.GoBackNSender.AwaitAckPhase | src/lib/client/go_back_n_sender_client.py:133-178 | one wait: at once over the last chunk, a timeout, a shutdown or one packet |
| GbnEndpoints.GoBackNSender.SendFile | src/lib/client/go_back_n_sender_client.py:55-91 | the loop ends in the state that folding the step functions over all the socket heard gives, with the numbers of that state, and reports the FIN back if and only if it read one |
| GbnEndpoints.GoBackNReceiver.ReceiveFirstChunk | src/lib/server/go_back_n_receiver_server.py:65-92 | everything before the first chunk is answered and changes nothing |
| GbnEndpoints.GoBackNReceiver.ReceiveFile | src/lib/server/go_back_n_receiver_server.py:94-134 | the loop ends in the state that delivering the heard packets one by one gives |
| GbnSystem.StepInv | src/lib/server/go_back_n_receiver_server.py:94-134 | every step of either endpoint keeps the invariant over both and over all datagrams in flight |
| GbnSystem.SenderHearsInv | src/lib/client/go_back_n_sender_client.py:145-178 | moving the window is safe because every acknowledgement in flight is |
| GbnSystem.SenderFollowsItsLoop | src/lib/client/go_back_n_sender_client.py:67-77 | in any run of the system the sender is where its own loop takes it on the events it heard |
| GbnSystem.ReceiverFollowsItsLoop | src/lib/client/go_back_n_receiver_client.py:97-137 | in any run of the system the receiver is where its own loop takes it on the packets it heard |
| GbnBehaviour.ChunkOnItsWay | src/lib/client/go_back_n_sender_client.py:101-131 | the fields of every chunk sent: its place, what it acknowledges, the FIN mark, port, length and data; it is kept for retransmission |
| GbnBehaviour.KeptIsLastSent | src/lib/client/go_back_n_sender_client.py:97-131 | what is kept is always the last packet sent |
| GbnBehaviour.NewRoundKeepsNothing | src/lib/client/go_back_n_sender_client.py:67-77 | a new round begins with nothing kept |
| GbnBehaviour.WindowIsOut | src/lib/client/go_back_n_sender_client.py:133-143 | with the window of ten packets out the sender leaves if and only if only the last chunk is outstanding, and otherwise listens |
| GbnBehaviour.NewAckMovesBase | src/lib/client/go_back_n_sender_client.py:151-160 | an acknowledgement that is not old moves the base exactly to it and forgets the lost time; when the loop ends on it, on either side |
| GbnBehaviour.OldAckCostsTime | src/lib/client/go_back_n_sender_client.py:161-178 | an old one only adds the time it took, and once 0.01 s is reached the window is sent again |
| GbnBehaviour.TimeoutSendsAgain | src/lib/client/go_back_n_sender_client.py:48-54 | a timeout sends the window again from the base |
| GbnBehaviour.FirstChunkWaitAnswers | src/lib/server/go_back_n_receiver_server.py:44-92 | while the first chunk is awaited every packet heard adds one copy of the last configuration packet to the log, and those with the receiver's number an acknowledgement, and nothing else happens |
| GbnBehaviour.FirstChunkLoopAnswers | src/lib/server/go_back_n_receiver_server.py:65-92 | the same of the receive loop on any list of events |
| GbnBehaviour.ReceiverAnswers | src/lib/server/go_back_n_receiver_server.py:30-34 | afterwards every packet heard is acknowledged with the numbers held, except the FIN that ends the file |
| GbnBehaviour.ReceiverClosingPackets | src/lib/server/client_connection/client_connection_gbn.py:216-235 | the two packets a finished receiver closes with, field by field |
| GbnBehaviour.SenderClosingPackets | src/lib/client/abstract_client.py:175-211 | the packets a finished sender closes with, answered or not, field by field |
| GbnResults.NumbersStayBounded | src/lib/common/sequence_number.py:17-21 | in every reachable state of any transfer no number is more than one beyond the label that would follow the last chunk |
| GbnResults.UploadNeverWraps | src/lib/common/sequence_number.py:17-21 | in every reachable state of an upload whose size fits its field, every counter of both ends and every number in flight is at most 3 033 175, so stepping a counter is adding one |
| GbnResults.UploadSafety | src/lib/server/go_back_n_receiver_server.py:94-134 | in the data phase of every client that has started sending, the server's file is always the first k chunks, k being none, the count its number shows, or all, and it is whole exactly when the receiver is done |
| GbnUpload.UploadServerSafety | src/lib/server/client_connection/client_connection_gbn.py:45-89 | over whole uploads, clients that give up while configuring included: the file is a prefix; without giving up the recorded size is right and a finished file whole; otherwise what is wrong is an empty file or a size of zero |
| GbnUpload.GivingUpIsUnsafe | src/lib/client/client_upload.py:68-76 | a finished server has the whole file, and the recorded size is right, in all runs of an offer if and only if the client does not give up, the file is empty, or the offer is refused |
| GbnUpload.GoodbyeZeroesSize | src/lib/server/client_connection/abstract_client_connection.py:158-185 | for every valid name, a run in which the goodbye of a client is recorded as a size of zero |
| GbnUpload.GoodbyeEndsFile | src/lib/server/go_back_n_receiver_server.py:44-63 | for every offer that is accepted, a run in which the goodbye of a client finishes the server with an empty file |
| GbnUpload.GoodbyeEndsEmptyUpload | src/lib/client/abstract_client.py:175-195 | for an empty file, a run in which the goodbye after the unanswered last wait finishes the server rightly |
| GbnResults.DownloadSafety | src/lib/client/go_back_n_receiver_client.py:97-137 | the client's file is always chunk 0 and an in-order prefix of the rest, whole exactly when done, and chunk i always travels as number 2 + i |
| GbnResults.WindowSafety | src/lib/client/go_back_n_sender_client.py:93-178 | base and acknowledgement number agree, nothing is sent beyond the window, no acknowledgement in flight is ahead of the receiver, all before the base is in the file, and lost time never reaches the timeout |
| GbnResults.ClientExit | src/lib/client/go_back_n_sender_client.py:67-91 | at exit the FIN chunk has been sent, at most the last chunk is missing, and the returned numbers are those of the receiver's closing packets |
| GbnResults.ServerExit | src/lib/server/go_back_n_sender_server.py:68-92 | at exit at most the last chunk is missing at the client, and the sequence number returned is one short exactly if the last chunk was never sent |
| GbnResults.FinBackIsSound | src/lib/server/go_back_n_sender_server.py:153-157 | a FIN believed to answer the last chunk implies that the whole file is there, on both sides |
| GbnBehaviour.FinBackMeansFinHeard | src/lib/client/go_back_n_sender_client.py:145-149 | on both sides, in every run, the flag is set if and only if a FIN that is no acknowledgement was heard |
| GbnBehaviour.FinBackIsPastLoop | src/lib/server/go_back_n_sender_server.py:153-180 | a sender that has its FIN back is past its loop |
| GbnCounterexamples.FinCanComeBack | src/lib/client/go_back_n_sender_client.py:67-91 | for every transfer of at least two chunks in the window, a run in which the FIN comes back |
| GbnResults.FinCompletionIsSound | src/lib/client/abstract_client.py:197-211 | a closing wait that ended on a FIN, or was not needed, implies that the whole file is there |
| GbnResults.SenderStopsOnlyOnNeither | src/lib/server/protocol_gbn.py:158-176 | the server's sender stops early on a packet if and only if it is neither acknowledgement nor FIN, the client's never, and the unset duration is never read |
| GbnWire.DatagramsFitTheWire | src/lib/client/protocol_gbn.py:101-124 | in every run of a data phase every datagram can be composed and parses back to what was sent; none is a SYN, and the port is the right one |
| GbnWire.UploadFitsTheWire | src/lib/client/protocol.py:283-323 | the same for whole uploads, if the datagrams of the handshake fit |
| GbnWire.DownloadFitsTheWire | src/lib/server/client_connection/client_connection_gbn.py:105-154 | and for whole downloads |
| GbnProgress.RoundLeads | src/lib/client/go_back_n_sender_client.py:67-77 | one loss-free round is a run of the system after which the receiver has the whole window and the base is at most one chunk behind it, for uploads and for downloads of at most a window plus one chunks |
| GbnProgress.TransferFinishesInBoundedRounds | src/lib/client/go_back_n_sender_client.py:48-77 | from any reachable listening state, 1 + ceil((total - 1) / (window - 1)) loss-free rounds lead to a reachable state in which the transfer is complete |
| GbnProgress.DownloadFinishesInTwoRounds | src/lib/server/go_back_n_sender_server.py:68-92 | for downloads of at most a window plus one chunks two such rounds do |
| GbnProgress.LoopDeliversAll | src/lib/server/go_back_n_receiver_server.py:116-132 | the receive loop on packets is plain delivery of all of them |
| GbnRefinement.StepRefines | src/lib/server/go_back_n_receiver_server.py:44-63 | a peek is a stutter, every other packet a step of the receiver that stores exactly what it expects |
| GbnRefinement.TwoPhaseReceiverRefinesPlain | src/lib/server/go_back_n_receiver_server.py:65-134 | on any packets the receiver ends like a plain one that was never shown the first appearance of the first chunk |
| GbnRefinement.PlainStoresConsecutively | src/lib/server/go_back_n_receiver_server.py:116-132 | what a plain receiver stores has consecutive numbers and stops with the FIN |
| GbnCounterexamples.LastChunkIsSent | src/lib/server/go_back_n_sender_server.py:68-92 | a sender is sure to have sent its last chunk at exit if and only if it is the client's or the file has at most eleven chunks, a window plus one |
| GbnCounterexamples.EarlyExit | src/lib/server/go_back_n_sender_server.py:168-193 | for every longer file, a run in which the server's sender leaves before its last chunk is sent |
| GbnCounterexamples.EarlyExitDerails | src/lib/server/client_connection/client_connection_gbn.py:252-273 | the run continues to a reported completion and a client that takes the closing acknowledgement for the last chunk |
| GbnCounterexamples.DerailedForever | src/lib/client/go_back_n_receiver_client.py:119-137 | no run from there completes the client's file |
| GbnCounterexamples.AckCompletionWithoutDelivery | src/lib/client/protocol.py:378-406 | for every transfer of at least two chunks in the window, a run in which the closing wait is answered while the receiver lacks the last chunk; a client has then kept nothing to retransmit |
| GbnCounterexamples.OnlyFinProvesDelivery | src/lib/client/protocol.py:393-406 | for uploads and downloads, an answer to the closing wait proves delivery if and only if it is a FIN or there was only one chunk to send |
| GbnCounterexamples.LateRequestStopsDownload | src/lib/server/protocol_gbn.py:171-176 | one delayed packet that is neither acknowledgement nor FIN can end a download if and only if the file has more than two chunks |
| GbnCounterexamples.FilenameStopsDownload | src/lib/server/client_connection/client_connection_gbn.py:156-201 | in every download the filename is such a packet |
| GbnCounterexamples.OnlyEmptyFilesSendNothing | src/lib/client/go_back_n_sender_client.py:61-91 | the client's loop sends something if and only if the file is not empty, and otherwise returns numbers that differ by one |
| GbnCounterexamples.EmptyUploadIsNeverAnswered | src/lib/client/protocol.py:388-406 | no packet the server sends, in any run of the configuration of an empty file, ends the client's last wait |
| GbnConfiguration.ConfigurationLockstep | src/lib/client/client_upload.py:87-137 | when the client starts sending chunks the server has accepted exactly the name and size sent and all counters are equal; a client that aborts was refused |
| GbnConfiguration.ConfigurationStartsUpload | src/lib/server/client_connection/abstract_client_connection.py:127-185 | a finished configuration is a start of the upload's data phase |
| GbnConfiguration.ConfigurationOutcome | src/lib/server/client_connection/abstract_client_connection.py:127-185 | from every start the client can get to sending if and only if the server can create the file and keeps its gap free, and can be refused if and only if not |
| GbnConfiguration.PacketsOnTheWay | src/lib/client/protocol.py:283-323 | which packets of the configuration are in flight at which stage, field by field |
| GbnConfiguration.RepeatedSizeIsAnswered | src/lib/server/go_back_n_receiver_server.py:55-63 | in every reachable ready configuration that awaits the first chunk, a size heard again is acknowledged again |
| GbnDownloadStart.FirstChunkStartsDownload | src/lib/server/client_connection/client_connection_gbn.py:105-154 | when the server's window sender starts, in any run, the client has not given up and has written exactly chunk 0, and the state is a start of the download's data phase |
| GbnDownloadStart.DownloadCanStart | src/lib/server/client_connection/client_connection_gbn.py:139-152 | from every start three packets start the server's sender |
| GbnDownloadStart.StartsOnFirstChunkWritten | src/lib/server/protocol.py:271-283 | in every reachable state a waiting server can be started by a packet in flight if and only if the client has written chunk 0 |
| GbnDownloadStart.PacketsOnTheWay | src/lib/client/client_download.py:87-109 | which packets are in flight at which stage, field by field |
| Cleanup.FileHandler.RemoveFileIfCorruptedOrIncomplete | src/lib/common/file_handler.py:107-136 | a file is kept exactly if its size is the announced one |
| Cleanup.FileHandler.HandleFailure | src/lib/server/client_connection/abstract_client_connection.py:342-370 | what each failure branch leaves in the directory |
| Cleanup.FailureOfWait | src/lib/server/client_connection/abstract_client_connection.py:342-370 | which exceptions of a wait are cleaned up after, and which of them keep their name |
| SawCleanup.RunUpload | src/lib/server/client_connection/abstract_client_connection.py:320-370 | the upload loop with its handlers: only a failure of a wait comes out, and whatever was flushed is kept if and only if that was a wrong sequence number or the size is the recorded one |
| GbnCleanup.SurvivingFileIsWhole | src/lib/server/client_connection/abstract_client_connection.py:231-240 | if the client has not given up, a go-back-N data phase that ends in any way leaves the directory as before, or with the client's whole file added exactly if all of it was flushed |
| GbnCleanup.UploadDamage | src/lib/server/client_connection/abstract_client_connection.py:342-370 | over all runs, the data phase can leave a damaged file if and only if the client gives up, the file is not empty, the name valid, and there is room: for the file if the server finishes, for an empty one if it fails |
| GbnCleanup.ConfigurationDamage | src/lib/server/client_connection/abstract_client_connection.py:127-185 | a failure during the configuration can leave a damaged file if and only if the name is valid, the file not empty, and the failure one of a wait or the refusal of a size that does not fit |
| SawCleanup.StopAndWaitDamage | src/lib/server/client_connection/abstract_client_connection.py:342-370 | for every way an upload of a non-empty file can end: without giving up, damage is possible if and only if it ends on a wrong sequence number; with it, if and only if it ends well or with any failure of a wait |
| SawCleanup.SequenceNumberDamages | src/lib/common/re_listen_decorator.py:66-96 | with any number of chunks on disk short of all, a reachable state in which the wait has used up its attempts on unwanted packets and the part is left behind |
| StopAndWait.StepInv | src/lib/server/client_connection/client_connection_saw.py:43-142 | every step, loss, duplication and giving up of a client keeps the shape of the channels and the two ends at most one item apart |
| SawResults.OneBitSuffices | src/lib/server/client_connection/client_connection_saw.py:43-142 | in both directions the receiver has accepted, in order and once each, the items confirmed plus at most one; on top comes at most one empty packet of an upload's client that has closed an empty file or given up |
| SawResults.CompletionIsSound | src/lib/client/abstract_client.py:197-209 | a sender past its last wait has a receiver that accepted everything, and that is done if and only if there was a chunk |
| SawResults.SawUploadSafety | src/lib/server/client_connection/client_connection_saw.py:63-89 | the server's file is always a prefix of the client's and the name is the one sent; a completed upload is whole; as long as the client has not given up the recorded size is right and a finished server has everything |
| SawCounterexamples.GivingUpIsUnsafe | src/lib/client/abstract_client.py:175-195 | a finished server is sure to have the whole file, and a recorded size to be right, if and only if the client does not give up or the file is empty |
| SawCounterexamples.GoodbyeTruncates | src/lib/server/protocol.py:256-269 | for every number of chunks stored short of all, a run in which the FIN of a client that gives up is taken for the last chunk |
| SawCounterexamples.GoodbyeZeroesSize | src/lib/server/protocol.py:239-254 | for every upload, a run in which the goodbye of its client is recorded as a size of zero |
| SawCounterexamples.CompletionNeedsAChunk | src/lib/client/client_upload.py:189-213 | the client's report of completion always means a finished server if and only if the file is not empty |
| SawCounterexamples.EmptyUploadCompletesAlone | src/lib/client/abstract_client.py:197-209 | a run in which the client of an empty file reports completion while the server waits for a chunk |
| SawResults.SawDownloadSafety | src/lib/client/client_download.py:64-79 | the client's file is always a prefix of the server's, and a completed download is whole, also if the client gives up |
| SawBehaviour.PacketsFitTheWire | src/lib/client/protocol.py:247-266 | in every reachable state, ordered or not, every packet in either channel can be composed and parses back to what was sent; none is a SYN, and the port is the right one |
| SawBehaviour.ItemOnTheWire | src/lib/server/protocol.py:302-324 | the packet of every item, uploads and downloads alike, arrives with its whole data |
| SawBehaviour.ReceiverAnswers | src/lib/server/client_connection/client_connection_saw.py:43-61 | every packet the receiver hears is answered: the expected one by its acknowledgement, and a FIN after the last, any other by what was said last |
| SawBehaviour.SenderAnswers | src/lib/client/client_upload.py:189-213 | a waiting sender goes on if and only if it hears the confirmation, with the next item, the second wait or the closing acknowledgement, and repeats its item otherwise |
| SawBehaviour.RepetitionsAndGoodbyes | src/lib/common/socket_saw.py:34-51 | what a timeout repeats, and the two packets of a goodbye |
| SawProgress.ExchangesFinish | src/lib/server/client_connection/client_connection_saw.py:113-142 | as many loss-free exchanges as there are items left finish both ends |
| SawProgress.TransferCanFinish | src/lib/common/socket_saw.py:73-97 | from every reachable state whose sender waits, even if everything in flight is lost, one timeout and that many exchanges finish the transfer |
| SawCounterexamples.OrderIsNeeded | src/lib/server/protocol.py:257-269 | if packets can overtake, then for every two items that share a bit and differ there is a run in which the older one is stored in the place of the newer |
| RetryEngine.ConfigureWantedExceptionsToCatch | src/lib/common/re_listen_decorator.py:20-45 | caught is everything on the list except what the caller lets through |
| RetryEngine.SocketSaw.RecvfromWithRetransmission | src/lib/common/socket_saw.py:53-104 | no wait is longer than 15 ms, each that times out is followed by the last packet at once unless the call raises, and each repetition took 15 ms; at most 299 of them; a lost connection only when they or the 30 s are used up |
| RetryEngine.SocketSaw.Recvfrom | src/lib/common/socket_saw.py:106-126 | without a packet to repeat, one wait of 30 s, whose every failure is a lost connection |
| RetryEngine.SocketSaw.ReListenIfFailed | src/lib/common/re_listen_decorator.py:51-98 | at most 300 calls and 300 repetitions for each; a value only if it was accepted; a caught exception only when attempts or time are used up, and then the socket's own or the verdict on the last packet heard |
| SawEndpoints.SawUploader.SendFile | src/lib/client/client_upload.py:176-215 | the chunk loop, of any number of chunks, moves as the protocol's sender does on the same packets and timeouts |
| SawEndpoints.Verdicts | src/lib/server/protocol.py:87-110 | which test raises which exception for which packet |
| SawEndpoints.SawUploader.InitiateCloseConnection | src/lib/client/abstract_client.py:197-211 | the last wait and the closing acknowledgement move as the protocol's sender does |
| SawEndpoints.SawUploader.PerformUpload | src/lib/client/client_upload.py:61-85 | an upload that completes is the protocol's sender past its last wait; one whose client says goodbye is that sender when it gives up; any other stops because the socket failed, a wait was used up on unwanted packets, or the server refused |
| SawEndpoints.SawFileReceiver.ReceiveSingleChunk | src/lib/server/client_connection/client_connection_saw.py:43-61 | one accepted chunk is appended and moves as the protocol's receiver does |
| SawEndpoints.SawFileReceiver.ReceiveFile | src/lib/server/client_connection/client_connection_saw.py:63-89 | the receive loop appends exactly the accepted chunks, moves as the protocol's receiver does, and fails only with the socket or when a wait was used up and a wrong bit heard last |
| SawEndpoints.SawFileReceiver.PerformUpload | src/lib/server/client_connection/client_connection_saw.py:195-204 | a reception that has closed is the protocol's receiver, finished, with everything it accepted in the file |
| SawEndpoints.SenderFollowsReplay | src/lib/client/client_upload.py:189-213 | in any run over the channels without giving up the sender is where replaying its socket's events takes it |
| SawEndpoints.ReceiverFollowsReplay | src/lib/server/client_connection/client_connection_saw.py:63-89 | in any run of an upload, giving up included, the receiver is where replaying its own takes it |
| SawEndpoints.CompletedUploadIsDelivered | src/lib/client/abstract_client.py:197-209 | an upload that completes in some run over ordered channels has delivered the whole file, to a server that has finished if and only if the file is not empty |
| SawEndpoints.FinishedReception | src/lib/server/client_connection/client_connection_saw.py:144-177 | a server that has finished in some run over ordered channels has a prefix of the file, and the whole of it if the client did not give up |

## Left out

- Sockets, threads, quitting from the keyboard, argument parsing, logging and hashing.
- The accepter, the handshake with its change of port, the client pool and the protocol mismatch; runs begin when the operation has been agreed, with leftovers of the handshake in flight.
- Addresses, and datagrams that no endpoint of this program sends.
- Timing in go-back-N: a timeout may happen whenever a sender listens. The 30 s limit of the server's receiver is the end of a run.
- The refusal of a filename or size in stop-and-wait mode, the empty file a failure there leaves in the same way as in go-back-N mode, and the closing handshake after a refusal in either mode.
- A client that gives up before the operation is agreed, and what a client that has given up still waits for, beyond the repetitions of its FIN.
- The field `last_ack` of both senders, which is written and never read.
- The last wait of a finished receiver for the sender's closing acknowledgement: in the model it only repeats its FIN.
- Downloads of one chunk in go-back-N mode, which never enter the window protocol, and downloads of empty files.
- The client's and server's stop-and-wait download loops as objects: they are modelled as steps in module StopAndWait only.
- The sizes of the receive buffers, beyond which the operating system would cut a datagram off.
- UTF-8 decoding of filenames, and free disk space beyond whether a file fits.
- GoBackN.FoldEvents: an empty list of events left means that the socket was shut down, so a run is cut off there.
- GbnEndpoints.GoBackNSender.SendFile: does not model files of more than two billion chunks, whose counters wrap and whose loop need not end, as WrappedWindowNeverFills shows; NumbersStayBounded and UploadNeverWraps show that no upload is one of them.
- GbnEndpoints.GoBackNSender.SendPacketsInWindow: the same.
- GbnResults.DownloadSafety: is stated for files whose chunk numbers stay below the maximum sequence number, about 2.8 terabytes.
- GbnProgress.TransferFinishesInBoundedRounds: leaves out downloads of more than a window plus one chunks, whose sender may leave early, as LastChunkIsSent shows, and then no number of rounds completes the file.
- SawEndpoints.SawFileReceiver.ReceiveFile: the network brings a finite, arbitrary number of datagrams; a peer that never sends a FIN and never falls silent would keep the original loop running.
