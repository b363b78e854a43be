# Sensor board: protocols, flash and filters, proved

A sensor board is a microcontroller with a radio coprocessor. It measures, exports metrics,
takes firmware updates over USB and over its Thread network, and passes configurations on to
other boards. This project models the parts of the firmware, of the shared protocol crate and
of the host's command-line tool where several functions, boards or processors have to work
together, and proves what they keep together.

Code that changes things in place is a class whose methods are proved to take exactly the
steps of a specification; what the code promises is then proved of those steps, over every
run. Calls into the stack, flash operations, timers, resets and the network are inputs that
can go any way.

| modules | what they model |
|---|---|
| TcpEndpoint, TcpService, TcpStack | the service's one TCP connection, and the send buffer it shares with the stack on the other processor |
| Flash, UpdateBoard, UpdateInvariant, UpdatePolicy, Updates | receiving, verifying and marking a firmware image on flash |
| HostOffer, PushState, UpdateNetwork, Delivery | the host that offers images and follows a push, the network between, and that images arrive |
| BuildMarker, UpdateCodec | the marker that tells an image's build, and the encoding of the update messages |
| Sums, Sinc, PdmFilter | the microphone's decimator with its look-up table, and the fixed-point passes after it |
| MaxLen | the longest postcard encoding of a schema |
| RequestChannel, ConfigRelay | requests with timeouts between tasks, and between boards |
| Fus, FusInstall | removing and receiving coprocessor firmware across resets |
| MetricsFilter, MetricsPaging | the metrics text: filtered in arbitrary pieces, and read in chunks |

Where the code and its comments differ, the model follows the code:

- `firmware/src/thread/mod.rs:1359` says that the stack no longer reads the send buffer after a
  disconnect. The comment in the connect branch (lines 1210-1218) reports disconnects that are
  stray; `TcpStack.StrayDisconnectOverwrites` shows what the next send then does.
- A close is not the end of what is heard of a connection: `TcpEndpoint.LateDisconnectReopens`
  shows what a late disconnect (`firmware/src/thread/mod.rs:1358-1366`) does after one.
- `firmware/src/thread/mod.rs:1296` says that a send-done follows when the buffer has been
  released. `TcpStack.FailedAbortLosesSendDone` shows how it can fail to,
  and `TcpStack.SendBufferIsSafe` that this is the only way.
- `firmware/src/coprocessor/fus.rs:93` rules out version 0.0.0, but a version word whose last
  byte alone is not zero reads as a stack of that version
  (`firmware/src/coprocessor/mod.rs:387-395`); `Fus.PendingRoundTrip` has the exact condition.
- `cli/src/firmware.rs:450` takes a push to have succeeded if every board that fetched the image
  kept it. A board that fetched from two addresses has two records, and only the first gets its
  outcome; `HostOffer.OneBoardTwice` shows such a push fail, and
  `HostOffer.SuccessMeansBoardsKept` when it cannot.

## Model

The main results come first, then the lemmas behind them and beside them, and last the methods
that are proved to do what the lemmas are about.

| member | source | states |
|---|---|---|
| `TcpEndpoint.EndpointIsConsistent` | firmware/src/thread/mod.rs:1159-1262 | after any requests, failed calls and callbacks, late and stray ones too: a waiting send means an open connection, a parked chunk and a non-empty send buffer; a waiting receive means open and no end of stream; a waiting connect means opening; an accept waits only while listening; the buffer is never overfull; no request has two responses |
| `TcpEndpoint.OpenExactly` | firmware/src/thread/mod.rs:1316-1384 | over every run: a connection is open if and only if the stack has said so and neither a disconnect nor an abort that worked came since, and over if and only if a disconnect that leaves it to time out came since then |
| `TcpEndpoint.ClosedMeansShut` | firmware/src/thread/mod.rs:1269-1281 | over every run after a close that is answered without an error: a finish is refused as out of sequence if and only if no connection has been reported open since, and until then so is every send; a receive is refused if and only if none has, and no disconnect that leaves one to time out |
| `TcpStack.SendBufferIsSafe` | firmware/src/thread/ot.rs:1100-1145 | if send-dones and disconnects come only while the stack holds nothing, late ones and those of other connections too: what the stack reads in the shared buffer is what it was given, and what it was given, with the parked chunk, is in order what was accepted; while a chunk is parked, the stack still holds bytes or a send-done is to come if and only if no failed abort has swallowed it on this connection since the last send-done |
| `TcpStack.SendDoneSparesExactly` | firmware/src/thread/mod.rs:1331-1343 | the condition on send-dones is exact: in every state one leaves all that the stack holds untouched, however the stack answers the parked chunk and whatever chunk comes next, if and only if the stack holds nothing |
| `TcpStack.DisconnectSparesExactly` | firmware/src/thread/mod.rs:1358-1366 | the condition on disconnects is exact in the same way |
| `TcpStack.ParkedUntilFreed` | firmware/src/thread/mod.rs:1331-1343 | such a chunk stays parked, with nothing to come, until another send-done, a disconnect or an abort that works, and no longer |
| `UpdateInvariant.OnlyVerifiedIsMarked` | firmware/src/update.rs:644-699 | in every run: what is staged still has the announced digest and build on flash, and nothing is being received then; every swap mark was written for verified content; a board restarts only into what it has just marked; a fetch in progress has an incoming image |
| `UpdateInvariant.MarkHoldsUntilChunk` | firmware/src/update.rs:681-699 | in every run: a mark, even one that was reported to have failed, is for what the staging area still begins with, as long as no further chunk has passed the checks |
| `UpdateInvariant.MarkSurvivesExactly` | firmware/src/update.rs:601-642 | the condition is exact: whatever the input's bytes and however flash goes, such a mark survives a step if and only if the step is not a chunk that passes the checks; a begin alone does it no harm |
| `UpdateInvariant.EraseBeforeProgram` | firmware/src/update.rs:601-642 | in every run: no operation is unaligned or outside the staging area, and words that are not blank are programmed if and only if a chunk is written over USB, passes the checks, has its erases succeed, and starts below where programming has been tried since the begin |
| `UpdateInvariant.RestartsExactly` | firmware/src/update.rs:356-379 | a board restarts if and only if it has just written a mark and flash has not reported that as failed |
| `UpdatePolicy.OnlyWantedIsFetched` | firmware/src/update.rs:423-460 | in every run a board fetches only a build that it neither runs nor has rolled back, and has given up exactly if its attempts are used up |
| `UpdatePolicy.TimersGiveUp` | firmware/src/update.rs:382-396 | a board that is not answered sends exactly one request for every due timer while it has attempts left, always the same one, gives up exactly at the first due timer after them, and keeps what it has received |
| `UpdateNetwork.FetchedIsBeginningOfImage` | firmware/src/update.rs:423-537 | over a network that loses, repeats and reorders, with the hosts' earlier packets still in it, competing hosts, USB requests and timers, and one image per build: while a board fetches, its staging area begins with exactly the bytes received of an image that a host offers, and the chunk that host serves for its current request passes the board's checks |
| `Delivery.OfferedImageIsDelivered` | cli/src/firmware.rs:521-548 | a board that is offered a wanted image that fits restarts into exactly those bytes, and the host has recorded that it has them, if and only if the exchanges after that bring every chunk, whichever requests or replies are lost and whenever the offer is repeated, if flash does not fail |
| `Delivery.FewLossesCostNothing` | firmware/src/update.rs:382-396 | if no request is lost more than eight times in a row, every one that arrives brings a chunk |
| `Delivery.OfferMakesGood` | firmware/src/update.rs:423-485 | whatever was lost before, given up or not, an offer and a request that arrives for each chunk bring that many |
| `Delivery.StagedAmongOffers` | firmware/src/update.rs:356-379 | an image that fits, sent over USB in the host's chunks, is staged if flash does not fail, whatever offers, chunks and timers come in between |
| `Delivery.Update` | cli/src/firmware.rs:137-147 | a board that runs another build restarts into the image if it fits and flash does not fail, and in any case if the last request is answered without an error; one that runs the build is left alone |
| `HostOffer.VerdictInTime` | cli/src/firmware.rs:660-690 | 420 s after the later of the start and the last fetching or valid chunk request a push has a verdict, whatever builds boards say they run; PushState.StateIsDecided says when it has one sooner |
| `HostOffer.VerdictNotSooner` | cli/src/firmware.rs:679-687 | no shorter time would do |
| `PushState.StateIsDecided` | cli/src/firmware.rs:660-690 | by the messages: a push is open if an address that fetches has asked within 180 s, if any has within 30 s, or if it is younger; after that it has stalled if and only if some address fetches, and otherwise is open if and only if some board may still come back |
| `PushState.OutcomeIsTold` | cli/src/firmware.rs:594-619 | a record has an outcome, kept or rolled back, if and only if a message told that very outcome to it, ten seconds or more after its board had the image |
| `HostOffer.BoardsCountOnceExactly` | cli/src/firmware.rs:689-712 | the report names a board as often as records carry its ID: every board at most once if and only if no two records carry the same |
| `HostOffer.IdsAreDistinctExactly` | cli/src/firmware.rs:510-626 | by the messages: no two records carry the same ID if and only if no ID was told of two addresses that have fetched |
| `HostOffer.OneBoardTwice` | cli/src/firmware.rs:594-626 | two can: one board that fetches from two addresses and keeps the image is reported as kept and as not back, and the push fails |
| `HostOffer.SuccessMeansBoardsKept` | cli/src/firmware.rs:451-454 | after a success every board that told its ID kept the image, and if no two records carry the same ID the push succeeds if and only if every such board did |
| `HostOffer.OutcomeWasTold` | cli/src/firmware.rs:594-626 | no outcome is made up: a message told it that named the board the record was then for, at least ten seconds after the whole image had been served to it |
| `HostOffer.OutcomeKeepsItsName` | cli/src/firmware.rs:517-520 | an outcome is reported under the board that told it if and only if no other ID was told from that address since, or its own was told last |
| `UpdateCodec.MessageRoundTrip` | protocol/src/lib.rs:741-757 | every update message is decoded as it was encoded, whatever bytes follow, and fits in 256 bytes |
| `BuildMarker.FindFromIsFirst` | protocol/src/lib.rs:144-152 | the search returns the first valid marker, and nothing exactly if there is none |
| `PdmFilter.Filter.Process` | firmware/src/sensor/mic/filter.rs:94-117 | for any split of the bitstream into calls since the last reset, the samples are those of the specification: the triple moving sum, the two passes, the gain and the clamp |
| `PdmFilter.SampleIsFiltered` | firmware/src/sensor/mic/filter.rs:106-116 | for every bitstream and sample: the high-pass output is below the exact weighted sum of all changes of the centred value by less than 256 / (256 - hp_alfa), the low-pass output below that of all high-pass outputs by less than 256 / lp_alfa, and the sample is 1/8 of it rounded to the nearest, or the limit of its sign beyond +-32700 |
| `PdmFilter.PassesBounds` | firmware/src/sensor/mic/filter.rs:110-112 | for every bitstream and both coefficients in range: high-pass output less input is within 2^20, and both outputs within 2^21 |
| `PdmFilter.IntermediatesFit` | firmware/src/sensor/mic/filter.rs:106-115 | for every bitstream: every product, sum and difference on the way from a centred value to its sample fits 32 bits, and so the 64 bits that it has |
| `Sinc.SincIsTripleMovingSum` | firmware/src/sensor/mic/filter.rs:54-58 | weighting by a boxcar convolved twice with itself is a moving sum of a moving sum of a moving sum, for any width and signal |
| `MaxLen.NamedBoundsEncoding` | protocol/src/max_len.rs:17-61 | the computed length bounds the postcard encoding of every value of every schema on which it does not panic |
| `MaxLen.ResultExactly` | protocol/src/max_len.rs:17-61 | there is a result if and only if the type holds nothing of any length and no enum without variants |
| `MaxLen.AttainedExactly` | protocol/src/max_len.rs:17-61 | it is the length of some value if and only if every enum has a variant with the longest index and the longest content at once |
| `RequestChannel.CallReturnsItsResponse` | firmware/src/request.rs:71-88 | however calls, timeouts, overwritten signals and late responses interleave: with at most 2^32 calls a call that returns a response returns the server's to that very request, and in any case to one of the same number |
| `RequestChannel.OneCallMoreReturnsAnother` | firmware/src/request.rs:71-74 | the bound is sharp: after 2^32 calls the next can return the response to the first |
| `RequestChannel.EachAtMostOnce` | firmware/src/request.rs:52-88 | in every run the server answers each request at most once, each call returns at most once, and no response is returned twice |
| `ConfigRelay.RelayedAnswersAreTrue` | firmware/src/board_config.rs:288-446 | in one boot with at most 2^32 questions, over a network that loses, repeats and reorders, while boards change their configurations: a passed-on request answered with a configuration was answered with one that the board had at an instant since the request, and a Set with the very one to store; no request is answered twice |
| `ConfigRelay.OneQuestionMoreGetsAnOldReply` | firmware/src/board_config.rs:345-369 | the bound is sharp: after 2^32 questions a Set can be answered with the reply to the first one, though the board has stored nothing since |
| `ConfigRelay.ReplyFromBeforeTheStart` | firmware/src/board_config.rs:345-369 | one boot is needed: a reply left in the network from before the relay started can answer its first Set, though the board never stores what it asks for |
| `ConfigRelay.LocalAnswersAreTrue` | firmware/src/board_config.rs:288-327 | over every run: a request for the board itself has its one answer at once; a Get what is stored; a Set that very configuration, stored then, or a storage error if and only if it was not stored and writing it failed |
| `ConfigRelay.RelayedRequestIsAnswered` | firmware/src/board_config.rs:345-446 | if nothing is lost: a Get is answered with what the other board has stored, and a Set stores there and is answered with the configuration, or a storage error if the board has stored anything else |
| `ConfigRelay.AnsweredByDeadline` | firmware/src/board_config.rs:372-389 | a passed-on request is answered by a reply, or once its deadline has come, unless a new request replaces it; resending does not move the deadline |
| `Fus.UninstallOnlyMovesOn` | firmware/src/coprocessor/fus.rs:154-171 | with a reset possible at any point: at most one delete command for each accepted uninstall, and the stored step only moves from entering FUS to delete to check to none, until another uninstall is accepted once nothing is pending |
| `Fus.UninstallIsCarriedOut` | firmware/src/coprocessor/fus.rs:154-171 | an uninstall accepted while the stack runs takes it down, gives its one delete, and ends with nothing pending |
| `Fus.DeleteSurvivesReset` | firmware/src/coprocessor/fus.rs:334-358 | from any state with the delete still pending, a reset at any point leads to exactly one delete once FUS is idle with a stack installed |
| `Fus.PendingRoundTrip` | firmware/src/coprocessor/fus.rs:107-151 | an operation is read back as stored exactly if it is not an install from stack version 0.0.0 |
| `FusInstall.InstallStaysWithin` | firmware/src/coprocessor/fus.rs:246-265 | from the start, for all requests in any order and however flash fails: flash outside the space between the application's end and the secure area never changes and no operation is out of range; while no programming has failed since the begin, whichever erases have, what was taken of the image is there in order |
| `FusInstall.RewritesExactly` | firmware/src/coprocessor/fus.rs:392-424 | after any run words that are not blank are programmed if and only if a chunk that passes the checks has its erases succeed and starts below where programming has been tried since the begin |
| `FusInstall.FinishExactly` | firmware/src/coprocessor/fus.rs:257-281 | after any run FUS is told to install if and only if a finish comes once all of the image was taken, and the image is there then if no programming has failed; after a finish nothing is written until a begin |
| `FusInstall.ImageIsInstalled` | firmware/src/coprocessor/fus.rs:372-424 | after a begin and its chunks an image that fits is on flash, whole, if no operation fails |
| `MetricsFilter.FilterKeepsMeaning` | firmware/src/metrics.rs:267-312 | however the text is cut: the filter succeeds exactly if every line is at most 192 bytes and there is room, and what comes out has the same samples in order, each below the same nearest type line, and no line that is not needed for that |
| `MetricsFilter.CutsDoNotMatter` | firmware/src/metrics.rs:302-311 | neither output nor failure depends on the cuts, for lines of any length and any room |
| `MetricsPaging.Metrics` | cli/src/board.rs:199-209 | the client's loop ends, with the text, whatever pieces each request renders it in |
| `TcpEndpoint.RequestKeeps` | firmware/src/thread/mod.rs:1109-1118 | one request, with every call into the stack failing or not, keeps that invariant |
| `TcpEndpoint.EventKeeps` | firmware/src/thread/mod.rs:1303-1386 | one callback, genuine or not, keeps it; an incoming connection is taken only while listening and closed, and is then only noted as opening, and since when; nothing but an established callback opens one |
| `TcpEndpoint.AnsweredByItsEvent` | firmware/src/thread/mod.rs:1316-1395 | a callback answers the pending request exactly if it is one that request waits for, with what the callback says; any other callback leaves it waiting |
| `TcpEndpoint.EmptyMeansClosed` | firmware/src/thread/mod.rs:1236-1250 | a receive is answered at once with an empty chunk exactly if the peer has closed its side and nothing is left; it waits exactly if the stream is open and there is no data |
| `TcpEndpoint.ListenHasItsEffect` | firmware/src/thread/mod.rs:1175-1187 | a listen without an error listens on the port asked for; one that fails leaves the old port or none; neither touches the connection |
| `TcpEndpoint.ParkedChunkHasRoom` | firmware/src/thread/mod.rs:1331-1343 | on a send-done the parked chunk always fits: it is queued, or the stack's own error is the response, never out-of-sequence |
| `TcpEndpoint.LateDisconnectReopens` | firmware/src/thread/mod.rs:1358-1366 | the second condition is needed: after a close, a late disconnect of that kind lets a receive pass and keeps an incoming connection from being taken |
| `TcpEndpoint.ClosedTakesIncoming` | firmware/src/thread/ot.rs:470-500 | a closed endpoint takes the next incoming connection if and only if it listens, until a connect, a callback or a late disconnect has made it take another up |
| `TcpEndpoint.StreamEndsExactly` | firmware/src/thread/mod.rs:1316-1357 | over every run: the stream has ended if and only if the stack has said so since the connection opened |
| `TcpEndpoint.AnsweredAtOnce` | firmware/src/thread/mod.rs:1159-1262 | for every request, state and outcome of the calls: the one response at once, or what it waits for |
| `TcpEndpoint.OnlyAbortsEnd` | firmware/src/thread/mod.rs:1192-1281 | a request ends the connection if and only if it aborts it and that works; only a connect then starts another |
| `TcpEndpoint.StuckIsFreed` | firmware/src/thread/mod.rs:1192-1200 | an accept gives up a connection that has been opening for more than ten seconds, and no other |
| `TcpStack.ChunkIsRead` | firmware/src/thread/ot.rs:1106-1145 | a chunk is copied to where the stack reads it, after all that it holds, by reference and by extension |
| `TcpStack.TurnKeeps` | firmware/src/thread/mod.rs:1285-1300 | each request, callback and release of the buffer keeps that safety and conservation |
| `TcpStack.TurnIsStep` | firmware/src/thread/mod.rs:1100-1118 | beside the stack the endpoint takes exactly its specified steps |
| `TcpStack.AcceptedGrows` | firmware/src/thread/mod.rs:1225-1235 | accepted bytes are only added to, until the connection is gone or the stack refuses the parked chunk, which is then withdrawn whole |
| `TcpStack.StaleSendDoneOverwrites` | firmware/src/thread/mod.rs:1331-1334 | in every state where the stack holds bytes, and nothing is parked or the stack refuses what is, a send-done and then a chunk with another first byte overwrite them |
| `TcpStack.StaleSendDoneOverwritesAtOnce` | firmware/src/thread/mod.rs:1333-1341 | with a chunk parked that the stack takes or not, and that starts with another byte, the send-done overwrites at once |
| `TcpStack.StrayDisconnectOverwrites` | firmware/src/thread/mod.rs:1358-1366 | in every state where the stack holds bytes, a stray disconnect, a late established and then a chunk with another first byte overwrite them |
| `TcpStack.FailedAbortLosesSendDone` | firmware/src/thread/ot.rs:578-586 | a failed abort that acknowledges the due send-done leaves the chunk parked with none to come |
| `TcpStack.SwallowedIsReached` | firmware/src/thread/ot.rs:578-586 | that state is reached from the start in five turns, with callbacks that all come while the stack holds nothing |
| `UpdateInvariant.ChunkEndsMark` | firmware/src/update.rs:626-642 | if flash works, the chunk overwrites what was marked, unless its first byte is the same |
| `UpdateInvariant.FailedMarkIsOverwritten` | firmware/src/update.rs:681-699 | a mark that is there although it was reported to have failed survives the begin after it, and not the chunk after that, while the board goes on serving |
| `UpdateInvariant.OnlyChunksWrite` | firmware/src/update.rs:336-379 | nothing but a chunk that passes the checks changes the staging area |
| `UpdateInvariant.ApplyRestarts` | firmware/src/update.rs:372-377 | an apply restarts the board if and only if it is answered without an error, which is if and only if an image is staged and both flash operations work |
| `UpdateInvariant.BeginExactly` | firmware/src/update.rs:577-597 | a begin is refused if and only if the image is empty or leaves no page free; either way what was received or staged before is over |
| `UpdateInvariant.OutOfSequenceExactly` | firmware/src/update.rs:601-699 | when a write, a finish and an apply are out of sequence, and that nothing but a finish then changes anything |
| `UpdateInvariant.FinishAnswers` | firmware/src/update.rs:644-678 | a finish once all was received succeeds, if flash can be read, if and only if what is there has the announced digest and build |
| `UpdateInvariant.FetchKeepsUsbOut` | firmware/src/update.rs:364-371 | while a board fetches, writes and finishes over USB are refused and change nothing |
| `UpdateInvariant.TriedMeansFailed` | firmware/src/update.rs:601-642 | in every run: while no programming has failed since the begin, what has been tried is what was received, and that is on flash |
| `UpdateInvariant.FetchNeverRewrites` | firmware/src/update.rs:507-530 | a chunk from the network is never programmed over words that are not blank, as a fetch ends at its first failure |
| `UpdateInvariant.RetryOverwrites` | firmware/src/update.rs:633-634 | a chunk that is sent again over USB after programming it failed is programmed over words that are not blank |
| `UpdateInvariant.StepKeeps` | firmware/src/update.rs:336-352 | one request, datagram or timer keeps the invariant behind these results, whatever flash does |
| `UpdateInvariant.WriteKeeps` | firmware/src/update.rs:601-642 | a write keeps the invariant, and its chunk is on flash if it succeeds |
| `UpdateInvariant.FinishKeeps` | firmware/src/update.rs:644-678 | finish stages only an image whose digest and build were found on flash |
| `UpdateInvariant.ReadPiecesFacts` | firmware/src/update.rs:653-660 | the pieces that are digested are, in order, the whole image |
| `UpdateInvariant.FindInPiecesFacts` | firmware/src/update.rs:557-575 | the search in overlapping pieces returns what the search of the whole image returns, unless a read fails |
| `UpdateInvariant.AcceptedFits` | firmware/src/update.rs:609-622 | a chunk that passes the checks is aligned, and with its padding stays a page below the end of the staging area |
| `UpdatePolicy.OfferIsDecided` | firmware/src/update.rs:423-485 | every offer is answered with the running build; the image is fetched after it exactly if it was before, or the board has a use for it, it fits, and nothing else is being received but a stalled fetch; going on keeps what was received |
| `UpdatePolicy.SilentHostIsGivenUp` | firmware/src/update.rs:382-396 | timers that each come a timeout or more after the one before are all due: so many requests as there are timers or attempts, whichever is less |
| `UpdatePolicy.ChunkGetsOn` | firmware/src/update.rs:507-530 | a chunk that gets the board on gives it all its attempts again and has it ask its host for the next; a late or repeated one changes nothing |
| `UpdatePolicy.FailedChunkFrees` | firmware/src/update.rs:518-522 | a chunk that flash fails to take ends the fetch and leaves the board free for the next offer |
| `UpdatePolicy.EightAttempts` | firmware/src/update.rs:382-396 | timers at least 1.5 s apart bring eight more requests for a chunk, and the next one the end of the fetch |
| `UpdateNetwork.BoardHolds` | firmware/src/update.rs:507-537 | no turn of the board breaks off from the image it fetches |
| `UpdateNetwork.HostStaysGenuine` | cli/src/firmware.rs:510-556 | a host answers only with parts of the image it offers |
| `Delivery.FetchCompletes` | firmware/src/update.rs:382-537 | the same from any point of a fetch on; while chunks are missing, the board is exactly as many further as were brought |
| `Delivery.FinishSucceeds` | firmware/src/update.rs:644-678 | an image that the host accepted passes the board's digest and piecewise search |
| `Delivery.NextPartIsAccepted` | firmware/src/update.rs:609-622 | the part of the image that the board lacks passes its checks, for any chunk length of whole words |
| `Delivery.ApplyDelivers` | firmware/src/update.rs:372-377 | what is staged is what an apply marks and restarts into |
| `Delivery.TransferIsUndisturbed` | firmware/src/update.rs:423-485 | datagrams and timers among the chunks of a transfer over USB leave the board as the chunks alone would, but for what it has sent |
| `HostOffer.VerdictIsFinal` | cli/src/firmware.rs:660-712 | without a further message a verdict stays as it is |
| `HostOffer.FromBytesExactly` | cli/src/firmware.rs:98-112 | a file is an image if and only if it has a build marker and a 32-bit length, and how it is announced |
| `PushState.ComingBackExactly` | cli/src/firmware.rs:680-685 | a board may come back for 420 s after it had the image |
| `PushState.StalledNames` | cli/src/firmware.rs:675-677 | a stalled push names each address that fetches once, by the ID told of it, and no other |
| `PushState.FinishedWhenAsked` | cli/src/firmware.rs:521-556 | a record's time is that of the first valid request for the last chunk from its address |
| `PushState.RecordsAreCurrent` | cli/src/firmware.rs:560-579 | each address that has asked has a record, which says when and for what it asked last |
| `PushState.BuildsAreLatest` | cli/src/firmware.rs:594-596 | of each board the build that it named last is known |
| `HostOffer.ReportAddsUp` | cli/src/firmware.rs:689-712 | in the report of a push that is over, every address record counts once (kept, rolled back, not back, or without an ID), and every known board that no record is for counts once (current or declined) |
| `HostOffer.LatestIsTheName` | cli/src/firmware.rs:517-520 | the ID told of an address is the last one told from it while fetching, if there is one |
| `HostOffer.SuccessMeansKept` | cli/src/firmware.rs:451-454 | a push succeeds if and only if the outcome of every record with an ID is that the board kept the image; one without an outcome had its 420 s |
| `HostOffer.OutcomeUnderAnotherName` | cli/src/firmware.rs:517-520 | otherwise another board is reported with it |
| `HostOffer.OneRecordPerAddress` | cli/src/firmware.rs:560-579 | however often and in what order boards are heard from, each address has one record |
| `HostOffer.HandleKeeps` | cli/src/firmware.rs:510-556 | what one message leaves of the records behind these results |
| `UpdateCodec.VarintRoundTrip` | protocol/src/lib.rs:909-941 | varints of 32 bits are read back as written |
| `BuildMarker.ParseIsInverse` | protocol/src/lib.rs:130-152 | a candidate parses as a build exactly if it is that build's marker |
| `BuildMarker.FindOfMarker` | protocol/src/lib.rs:130-152 | a marker is found in itself |
| `BuildMarker.NextPiece` | firmware/src/update.rs:557-575 | a piece without a marker passes the search on to the next piece without losing one that lies across its end |
| `PdmFilter.PartsMakeCentred` | firmware/src/sensor/mic/filter.rs:106-108 | three parts of consecutive blocks make the centred triple moving sum |
| `PdmFilter.PcmPrefix` | firmware/src/sensor/mic/filter.rs:90-94 | a sample does not depend on what comes after it |
| `PdmFilter.CentredBounds` | firmware/src/sensor/mic/filter.rs:106-106 | the centred value is within 2^20 for every bitstream |
| `PdmFilter.PaddedSincSum` | firmware/src/sensor/mic/filter.rs:72-72 | the coefficients add up to 128^3 |
| `PdmFilter.HighPassIsWeighted` | firmware/src/sensor/mic/filter.rs:110-111 | the high-pass part, with weights that fall by hp_alfa / 256 with each sample |
| `PdmFilter.LowPassIsWeighted` | firmware/src/sensor/mic/filter.rs:112-112 | the low-pass part, with weights lp_alfa / 256 that fall by the rest |
| `PdmFilter.GainIsRounded` | firmware/src/sensor/mic/filter.rs:114-115 | the gain and the limits |
| `PdmFilter.ConvAtMost` | firmware/src/sensor/mic/filter.rs:121-127 | no value of a convolution exceeds the product of the factors' sums |
| `PdmFilter.TermFits` | firmware/src/sensor/mic/filter.rs:125-125 | neither a term nor a partial sum of a convolution overflows 32 bits |
| `PdmFilter.EntryFits` | firmware/src/sensor/mic/filter.rs:65-67 | no table entry exceeds the coefficients' sum |
| `PdmFilter.PassKeepsBounds` | firmware/src/sensor/mic/filter.rs:110-112 | the floor shifts keep those bounds |
| `PdmFilter.HighPassBoundIsAttained` | firmware/src/sensor/mic/filter.rs:110-111 | the bound on the high-pass difference cannot be lowered |
| `PdmFilter.RoundDivIsNearest` | firmware/src/sensor/mic/filter.rs:135-141 | the result is the nearest integer, and of two as near the one farther from zero |
| `Sinc.ConvSumLaw` | firmware/src/sensor/mic/filter.rs:121-127 | the sum of a convolution is the product of the sums, for any lengths |
| `MaxLen.NamedIsAttained` | protocol/src/max_len.rs:17-61 | such a value, for every such type |
| `MaxLen.SmallEnumIsAttainable` | protocol/src/max_len.rs:37-54 | an enum of up to 128 variants is such a type if its variants are |
| `MaxLen.VarintLenIsExact` | protocol/src/max_len.rs:90-93 | the length computed from the bits is that of the varint |
| `MaxLen.VarintLenIsMonotone` | protocol/src/max_len.rs:90-93 | a larger value never has a shorter varint |
| `MaxLen.VarintMaxBounds` | protocol/src/max_len.rs:85-87 | no value of a width has a longer varint than the width's longest |
| `RequestChannel.CallIsAnswered` | firmware/src/request.rs:71-88 | a call that is received and answered before its timeout returns that answer, whatever the signals hold from before |
| `RequestChannel.TakeConsumes` | firmware/src/request.rs:76-86 | a response that is seen is gone, and ends the call if and only if it has the call's number |
| `RequestChannel.NextKeeps` | firmware/src/request.rs:52-60 | what each signal, call and response keeps |
| `ConfigRelay.LocalStep` | firmware/src/board_config.rs:293-303 | a request for the board itself: its answer, what is stored, and nothing sent |
| `ConfigRelay.ForwardStep` | firmware/src/board_config.rs:345-369 | a request for another board: sent once under the next number, to be resent after 5 s and given up after 14 s, or a network error at once |
| `ConfigRelay.DueStep` | firmware/src/board_config.rs:372-389 | before the deadline the same question is sent again, and at the deadline there was no answer |
| `ConfigRelay.AskedStep` | firmware/src/board_config.rs:391-430 | what a board that is asked stores and replies |
| `ConfigRelay.ReplyStepAnswers` | firmware/src/board_config.rs:433-446 | what the awaited reply makes of the request |
| `ConfigRelay.EraseStep` | firmware/src/board_config.rs:330-341 | an erase leaves nothing stored, or what its failure left |
| `ConfigRelay.OldReplyIsNoAnswer` | firmware/src/board_config.rs:433-446 | in every state: a reply in the network that has the next question's number answers a Set to that board, whatever the board has stored |
| `ConfigRelay.StepAnswersOnce` | firmware/src/board_config.rs:345-389 | no step answers a request that has been answered |
| `ConfigRelay.RelayAnswers` | firmware/src/board_config.rs:433-446 | a reply that completes a request is the reply to that request's question |
| `ConfigRelay.BoardPackets` | firmware/src/board_config.rs:391-430 | a board's reply says what it has stored at that instant |
| `ConfigRelay.StepSends` | firmware/src/board_config.rs:345-430 | a board sends only its pending question, or a reply to a question to itself |
| `Fus.NextKeeps` | firmware/src/coprocessor/mod.rs:197-210 | what every boot, reset, request and answer of FUS keeps |
| `Fus.CheckIsTheEnd` | firmware/src/coprocessor/fus.rs:340-344 | from any state with the check pending, a reset leads to no other delete, and to nothing pending |
| `Fus.DeletesExactly` | firmware/src/coprocessor/fus.rs:334-358 | a delete is given if and only if FUS has settled idle with a delete pending and a stack installed, and the command follows |
| `Fus.NoDelete` | firmware/src/coprocessor/fus.rs:334-350 | none if FUS fails, no stack is installed, or the check is pending |
| `Fus.PendingEndsExactly` | firmware/src/coprocessor/mod.rs:197-210 | the only ways in which what is pending ends |
| `Fus.PhasesExactly` | firmware/src/coprocessor/fus.rs:228-250 | how the chip comes to serve, and when what was resumed is over |
| `Fus.BootResumes` | firmware/src/coprocessor/mod.rs:195-213 | what a boot takes up of what is pending, with and without the stack running |
| `Fus.RequestsAreStored` | firmware/src/coprocessor/fus.rs:154-171 | when an uninstall and an install are accepted, and that they are stored first |
| `Fus.StandsForSomething` | firmware/src/coprocessor/fus.rs:84-151 | which words stand for an operation |
| `Fus.ReadingsExactly` | firmware/src/coprocessor/fus.rs:300-317 | which readings mean idle, failure and busy |
| `Fus.WordRoundTrip` | firmware/src/coprocessor/fus.rs:94-105 | a version is read back from its word, and the word is zero only for 0.0.0 |
| `FusInstall.BegunWhereItFits` | firmware/src/coprocessor/fus.rs:372-390 | an image is refused exactly if it is empty or fits on no page boundary, and otherwise goes to the last that it fits on |
| `FusInstall.WriteStays` | firmware/src/coprocessor/fus.rs:392-424 | one chunk, accepted or not and however flash fails, changes nothing below the image's start or from the secure area on |
| `FusInstall.WriteArrives` | firmware/src/coprocessor/fus.rs:392-424 | a chunk that flash takes is there after those before it; it goes to words that are not blank if and only if programming has been tried there before; a failed erase harms nothing |
| `MetricsFilter.RunKeeps` | firmware/src/metrics.rs:285-311 | what is written out are exactly the kept lines; it fails exactly if a line is too long or there is no room |
| `MetricsFilter.FilterTwice` | firmware/src/metrics.rs:267-312 | filtering twice is filtering once |
| `MetricsFilter.SamplesKeepTheirTypes` | firmware/src/metrics.rs:285-298 | each kept sample has the nearest type line it had |
| `MetricsFilter.TypedSamplesExactly` | firmware/src/metrics.rs:285-298 | the samples with their types are the sample lines of the text in order, each with the nearest type line before it |
| `MetricsFilter.LinesAreTold` | firmware/src/metrics.rs:258-288 | which lines are samples and types, in characters, and how long a line may be |
| `MetricsFilter.NothingElseIsKept` | firmware/src/metrics.rs:285-298 | every kept line is a line of the text, and a sample or just before one |
| `MetricsPaging.ChunkAt` | firmware/src/metrics.rs:597-608 | from the offset a client asks for, a chunk is the longest beginning of the rest that fits, at least one character, and says whether more follows |
| `TcpService.Service.TcpClose` | firmware/src/thread/mod.rs:1269-1281 | aborts, or changes nothing if that fails |
| `TcpService.Service.TcpQueue` | firmware/src/thread/mod.rs:1285-1300 | copies the chunk behind the queued bytes and queues it, or parks it, or fails |
| `TcpService.Service.TcpSend` | firmware/src/thread/mod.rs:1225-1235 | takes exactly the step of a send |
| `TcpService.Service.TcpAccept` | firmware/src/thread/mod.rs:1192-1208 | takes exactly the step of an accept, and frees an endpoint that has been opening too long |
| `TcpService.Service.TcpConnect` | firmware/src/thread/mod.rs:1209-1224 | takes exactly the step of a connect, always from a closed endpoint |
| `TcpService.Service.TcpStep` | firmware/src/thread/mod.rs:1159-1262 | takes exactly the specified step for every request |
| `TcpService.Service.HandleRequest` | firmware/src/thread/mod.rs:1109-1118 | responds at once or remembers what to wait for; a new request replaces the pending one |
| `TcpService.Service.HandleEvent` | firmware/src/thread/mod.rs:1303-1386 | takes exactly the specified step for every callback |
| `TcpService.Service.HandleDisconnected` | firmware/src/thread/mod.rs:1358-1384 | ends the connection, and fails or ends the request that it affects |
| `TcpService.Service.Copy` | firmware/src/thread/ot.rs:1109-1117 | the loop that copies into the shared array: the queued bytes stay, the chunk follows them |
| `Updates.Service.Begin` | firmware/src/update.rs:577-597 | takes exactly the step of a begin |
| `Updates.Service.EraseTo` | firmware/src/update.rs:626-632 | the loop that erases page by page, up to where the chunk ends or an erase fails |
| `Updates.Service.Write` | firmware/src/update.rs:601-642 | takes exactly the step of a write |
| `Updates.Service.Digested` | firmware/src/update.rs:653-660 | the loop that reads the image in pieces |
| `Updates.Service.BuildInStagingArea` | firmware/src/update.rs:557-575 | the loop that searches overlapping pieces |
| `Updates.Service.Finish` | firmware/src/update.rs:644-678 | takes exactly the step of a finish |
| `Updates.Service.MarkForSwap` | firmware/src/update.rs:681-699 | takes exactly the step of a mark |
| `Updates.Service.HandleRequest` | firmware/src/update.rs:356-379 | takes exactly the step of a USB request |
| `Updates.Service.RequestNextChunk` | firmware/src/update.rs:494-505 | asks the last offering host for the chunk after what was received |
| `Updates.Service.HandleTimers` | firmware/src/update.rs:382-396 | takes exactly the step of a timer |
| `Updates.Service.HandleOffer` | firmware/src/update.rs:423-485 | takes exactly the step of an offer |
| `Updates.Service.HandleChunk` | firmware/src/update.rs:507-537 | takes exactly the step of a chunk: write, ask on, or finish, mark and restart |
| `Updates.Service.HandleDatagram` | firmware/src/update.rs:398-419 | dispatches datagrams |
| `Delivery.SendChunks` | cli/src/firmware.rs:119-132 | the loop over chunks of 512 bytes ends with every byte of the image received, or with the board's refusal |
| `Delivery.Stage` | cli/src/firmware.rs:117-135 | a success means that the image is staged; an image that does not fit is refused; one that fits is staged if flash does not fail |
| `HostOffer.Host.Handle` | cli/src/firmware.rs:510-556 | takes exactly the step of a message, and returns its reply |
| `HostOffer.Host.FetcherAt` | cli/src/firmware.rs:560-579 | finds the record of an address or adds one |
| `HostOffer.Host.Record` | cli/src/firmware.rs:594-635 | takes exactly the step of a running build |
| `UpdateCodec.EncodeWithPrefix` | protocol/src/lib.rs:741-750 | writes prefix and body to the start of the buffer and leaves the rest; fails exactly if the buffer is too short |
| `UpdateCodec.EncodeInto` | protocol/src/lib.rs:944-960 | a buffer of the longest message's length is always enough, and what is written decodes to the message |
| `PdmFilter.Filter.constructor` | firmware/src/sensor/mic/filter.rs:53-82 | builds the look-up table from the convolved boxcars, with no bitstream heard |
| `PdmFilter.Filter.Reset` | firmware/src/sensor/mic/filter.rs:85-88 | forgets the bitstream |
| `PdmFilter.Filter.Shares` | firmware/src/sensor/mic/filter.rs:97-104 | the three sums over the nibble table are the three parts of the sinc filter over the block, and fit in 32 bits |
| `PdmFilter.Filter.Filtered` | firmware/src/sensor/mic/filter.rs:106-112 | the two carried sums make the centred value, and both passes take one step |
| `PdmFilter.Filter.Sample` | firmware/src/sensor/mic/filter.rs:96-116 | one sample from one block |
| `PdmFilter.BuildTable` | firmware/src/sensor/mic/filter.rs:60-70 | every entry is the share of its nibble value at its position |
| `PdmFilter.SincCoefficients` | firmware/src/sensor/mic/filter.rs:54-58 | two convolutions of the boxcar, padded with a zero at both ends |
| `PdmFilter.Convolve` | firmware/src/sensor/mic/filter.rs:121-127 | the convolution, entry by entry |
| `MaxLen.NamedLen` | protocol/src/max_len.rs:17-61 | the recursion, against its specification |
| `MaxLen.EnumLen` | protocol/src/max_len.rs:37-54 | the loop over variants finds the longest |
| `MaxLen.TupleLen` | protocol/src/max_len.rs:63-81 | the loop over fields adds them up |
| `RequestChannel.AwaitResponse` | firmware/src/request.rs:76-86 | the client's loop returns the first response with its number and drops those before |
| `RequestChannel.Shared.Call` | firmware/src/request.rs:71-74 | takes the next number and overwrites the request signal |
| `RequestChannel.Shared.Receive` | firmware/src/request.rs:53-56 | hands the server the latest request with the number it was made under |
| `RequestChannel.Shared.Respond` | firmware/src/request.rs:58-60 | overwrites the response signal |
| `RequestChannel.Shared.Take` | firmware/src/request.rs:76-86 | one turn of the client's loop |
| `ConfigRelay.Configs.HandleRequest` | firmware/src/board_config.rs:288-308 | takes exactly the step of a request |
| `ConfigRelay.Configs.StoreConfig` | firmware/src/board_config.rs:311-327 | does not rewrite flash with what it holds, and reports a failed write |
| `ConfigRelay.Configs.ForwardTo` | firmware/src/board_config.rs:345-369 | numbers the question, sends it, and remembers it only if it was sent |
| `ConfigRelay.Configs.Resend` | firmware/src/board_config.rs:372-389 | sends the same question again before the deadline, and gives up after it |
| `ConfigRelay.Configs.HandleDatagram` | firmware/src/board_config.rs:391-417 | stores and replies, or handles a reply |
| `ConfigRelay.Configs.HandleReply` | firmware/src/board_config.rs:433-446 | completes the pending request if board and number match |
| `ConfigRelay.Configs.EraseConfig` | firmware/src/board_config.rs:330-341 | erases the configuration |
| `Fus.WaitIdle` | firmware/src/coprocessor/fus.rs:300-317 | idle is reported only after FUS was idle without a break for the settling time, at the first such reading; failure at the first failure |
| `Fus.Installer.UninstallStack` | firmware/src/coprocessor/fus.rs:334-358 | stores the check before the one delete command; ends in a reset, or with how FUS settled |
| `FusInstall.Receiver.Begin` | firmware/src/coprocessor/fus.rs:372-390 | takes exactly the step of a begin |
| `FusInstall.Receiver.Write` | firmware/src/coprocessor/fus.rs:392-424 | takes exactly the step of a write |
| `MetricsFilter.Samples.FinishLine` | firmware/src/metrics.rs:285-299 | writes out or drops a line, and fails where there is no room |
| `MetricsFilter.Samples.WriteStr` | firmware/src/metrics.rs:303-311 | the loop over the newlines of a piece does what the filter does byte by byte |
| `MetricsPaging.Sink.WriteStr` | firmware/src/metrics.rs:597-608 | the loop over characters |
| `MetricsPaging.Text` | firmware/src/metrics.rs:572-587 | a chunk does not depend on how the text is rendered |

## Left out

- TcpStack.SendBufferIsSafe: whether the stack on the other processor calls back only while it holds nothing is not modelled; the lemmas beside it say exactly what depends on that.
- TcpService.Service.TcpStep: the poll period, the exchange deadline and the count of late callbacks are not modelled; they do not feed back into the connection.
- UpdateNetwork.FetchedIsBeginningOfImage: one board and any number of hosts; other boards send arbitrary requests. Addresses are numbers: flow info and scope ID are not part of a peer.
- Delivery.OfferedImageIsDelivered: one host, no USB requests, and no reply that comes twice or late; `UpdateNetwork.FetchedIsBeginningOfImage` covers those, without a promise that the fetch ends.
- UpdateInvariant.OnlyVerifiedIsMarked: SHA-256 is an arbitrary function, and the state page an abstract mark that records what the staging area held. What a reset would swap in is what the staging area then holds: `MarkHoldsUntilChunk` and `MarkSurvivesExactly` say when that is what was marked.
- HostOffer.ReportAddsUp: the declined boards are a map, without the order of the lines printed; news lines, progress bars and the summary are not modelled.
- UpdateCodec.MessageRoundTrip: lengths and variants are read as 32-bit varints, as on the board.
- PdmFilter.Filter.constructor: takes the two filter coefficients as integers; the floating-point expressions that give them are not modelled.
- MaxLen.NamedBoundsEncoding: floats are their bytes, and a usize has 64 bits; strings, sequences and maps have no bound in the code either.
- RequestChannel.AwaitResponse: the timeout is the end of the signals that are seen.
- ConfigRelay.RelayedAnswersAreTrue: a peer is the board at that address, and only boards reply.
- Fus.UninstallOnlyMovesOn: starts with nothing pending; after a power-up the words are taken to stand for nothing. How long an install is waited for (`await_install`) is not modelled; what is installed then is reported either way.
- FusInstall.InstallStaysWithin: a chunk's end is an unbounded integer; a chunk whose end would overflow 32 bits is out of sequence. What FUS does with a complete image is not modelled.
- MetricsPaging.Metrics: the text is the same at every request, and shorter than 2^32 bytes.
- MetricsFilter.Samples.WriteStr: what the fields hold after a failure is not specified, as the writer is not used again.
- The bootloader's swap and revert, and the trial of a new image (`run_trial`): library code and radio state that is not part of this model.
- Publishing update and coprocessor status: no decision depends on it.
- The inside of OpenThread, of the coprocessor and of its mailbox: calls succeed or fail, callbacks come in any order.
- Datagram sockets, service registration, the Home Assistant client and the REST server: requests passed through to the stack or to libraries.
- Sensor drivers, clocks, power, watchdog and USB: hardware access.
- Command-line arguments, printing, mDNS and discovery in the host's tool, and the small parsers and printers of the protocol crate.
