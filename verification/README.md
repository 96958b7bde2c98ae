# A verified model of the transport, the loader and their queues

This project models, in Dafny, the parts of the repository whose correctness is hardest to see
from reading them, and proves what they promise over every run. Each algorithm that works by
changing fields is a class with its loops, proved to compute a function on values; what the
source promises is proved of that function, and of runs of it.

- **The reliable UDP stream.** `StreamSpec` is what each handler makes of an end's state and the
  packets it sends. `StreamSender` and `StreamReceiver` prove what every step of either side
  keeps, `StreamNetwork` runs two ends over a network that may drop, repeat, delay and reorder
  anything ever sent, `StreamFlow` proves no stall and congestion accounting, `StreamProgress`
  that fair delivery drains the stream, `StreamWindow` and `StreamPath` what acks, losses and
  timeouts do to the window and the packets, `StreamService`, `StreamClose` and `StreamClocks`
  what the reader, the peer and a close are owed, `AckRanges` the ranges, and `UdpStream` the object itself. The cells of the stream are what the offsets where
  it was ever cut lie between; every packet ever sent covers whole cells, however often chunks
  are split while older copies are on their way.
- **The loader.** `Loader` lists the files after every file operation, `LoaderRuns` runs it with
  a crash possible after each. One finding: `bootAfterFlow` is cleared only by the end of an
  operator flow. When a trial stages a successor under "now" during its flow and then throws,
  the flag outlives it; the successor boots, serves, is told to boot again, and is dropped as
  tried and never committed. The lemmas `HealthySuccessorDropped` and
  `ServedIsCommittedUnlessLeftOver` give the run and the exact condition. No safety promise is
  broken by it. Another: a loader that implements another ABI does not read the committed host,
  so the floor can fall as it starts; `NewAbiLowersFloor` and `RestartKeepsFloorIff` say when.
- **Queues, framers and codecs.** `Queues` (`Pieces`, `Fifo`), `Framing`, `FramingExact` and
  `Framers`, `Masking`, `Utf8`.
- **The channel.** `Handshake`, `HandshakeRun` and `HandshakeReplay`, `Records`, `RecordEnds`,
  `RecordRuns` and `RecordGoodbye`, and `Link`, over abstract primitives with their laws: Diffie-Hellman commutes, decapsulation undoes
  encapsulation, opening undoes sealing, a holder's signature verifies. Integrity of the cipher
  and the absence of hash collisions are hypotheses about the very records and inputs in
  question: that an arriving record opens at none of the places a receiver can come to but the
  one it was sealed at, and that the inputs of two sessions do not collide. `RecordRuns` shows
  the first can be met by a cipher whose keys all repeat.
- **Scheduling and accounting.** `RealmQueue`, `RealmOutcomes` and `RealmHost`, `Outbound`,
  `OutboundAdmission` and `TransportHost`, `Delivery`.

How values are modelled: times and windows are reals; packet numbers, offsets and byte
counts are unbounded, as the source's 48-bit fields and doubles hold them exactly below their
width. A handler reads the clock once. Shifts and masks of bytes are written as division and
remainder, and XOR on binary digits. What a socket, a file system, a guest or an adapter answers
comes in as a parameter, so every answer is covered. A `ghost` or `history` field records what
was ever written, sent or settled, for the theorems to speak of.

## Model

| member | source | states |
|---|---|---|
| `StreamNetwork.EveryReadIsAPrefix` | WASM/transport/src/stream.js:304-376 | in every run of two ends over a network that drops, repeats, delays and reorders what was sent, the bytes each reader was handed, and those held for it, are a prefix of what the other end wrote, through path moves and packet-size changes |
| `StreamNetwork.NothingAckedIsLost` | WASM/transport/src/stream.js:416-446 | in every such run a cell of the stream the sender has forgotten is below the peer's in-order end, or waits past a gap under its own offset with at least its length, through splits, late whole copies and the clearing of what waits |
| `StreamNetwork.DrainedMeansArrived` | WASM/transport/src/stream.js:268-283 | when nothing is buffered any more, which a graceful close waits for, everything written is in order at the peer |
| `StreamNetwork.BufferedCounts` | WASM/transport/src/stream.js:268-272 | what is buffered covers all not yet sent, and is nothing exactly when every byte was sent and every chunk acked |
| `StreamNetwork.NoHonestPacketRefused` | WASM/transport/src/stream.js:304-306 | the sender's credit never passes what the receiver gives, so no packet an honest end ever put on the path is refused for credit, whenever it arrives |
| `StreamNetwork.AcksNameArrivals` | WASM/transport/src/stream.js:378-411 | no ack ever sent names a packet number that did not arrive |
| `StreamNetwork.ReceiverBounds` | WASM/transport/src/stream.js:304-334 | for any packets at all, an end holds at most a credit in order, counts exactly what waits past gaps, and past two credits of it, by packet bytes or by slices, has ended |
| `StreamNetwork.EveryRunLinked` | WASM/transport/src/stream.js:118-203 | the invariant behind these: every packet ever sent covers a run of whole current cells of the stream, and each receiver's in-order end is one of the sender's cuts |
| `StreamNetwork.StepKeeps` | WASM/transport/src/stream.js:205-300 | every event, whatever packet it brings, keeps the sender's tiling, numbers and count of the flight, and gives up nothing received |
| `StreamNetwork.StepHonest` | WASM/transport/src/stream.js:304-376 | every event keeps what was received equal to what the peer wrote, wherever it waits |
| `StreamReceiver.StoreKeeps` | WASM/transport/src/stream.js:311-330 | storing any chunk keeps the receiver's bounds and count, and covers the chunk's offset from then on |
| `StreamReceiver.StoreHonest` | WASM/transport/src/stream.js:311-330 | storing a run of whole cells keeps what is in order equal to what was written and its end on a cut, also when pieces and a whole copy overlap |
| `StreamSender.FlushLoopKeeps` | WASM/transport/src/stream.js:541-608 | the send loop keeps every chunk a whole cell, due to be resent or in the air, and each packet sent covers whole cells |
| `StreamSender.FitKeeps` | WASM/transport/src/stream.js:580-592 | splitting a chunk that no longer fits only adds a cut: what older packets carry stays a run of whole cells |
| `StreamSender.AckAllKeeps` | WASM/transport/src/stream.js:427-445 | walking an ack's ranges forgets only chunks whose own packet the ack names |
| `StreamSender.DetectLossKeeps` | WASM/transport/src/stream.js:481-527 | a packet given up on leaves its chunk due to be resent, unless acked by another |
| `StreamFlow.NeverStalls` | WASM/transport/src/stream.js:541-555 | after every event of a live stream, while something is not acked or could be sent a packet is in flight, and then a recovery wake is due no later than recovery is |
| `StreamFlow.NoRunStalls` | WASM/transport/src/stream.js:610-647 | so over every sequence of events |
| `StreamFlow.FlushNeverStalls` | WASM/transport/src/stream.js:541-555 | a flush that leaves anything unacked or sendable leaves a packet in flight, since the window always has room for one in an empty flight |
| `StreamProgress.EveryRunDrains` | WASM/transport/src/stream.js:416-466 | after any run of two ends, whatever the network lost, each fair round (a due timeout's wake, one packet it sends delivered, the peer's turn, its ack delivered) moves the bytes acked on; so there are no more rounds than bytes unacked, and where they stop with nothing pending everything written is acked, and in order at the peer, or all the peer gave credit for is acked |
| `StreamProgress.RoundMoves` | WASM/transport/src/stream.js:416-466 | a fair round keeps both ends linked and never stalled, changes nothing written, and strictly raises the bytes acked |
| `StreamProgress.RoundsExist` | WASM/transport/src/stream.js:336-357 | from any linked state with something pending and the timeout due, the wake sends a packet, and if the peer outlives its arrival the peer's turn leaves an ack naming it on the path |
| `StreamProgress.DueTimeoutSends` | WASM/transport/src/stream.js:630-647 | a wake at which the timeout is due sends, whatever the window, a packet under a new number whose chunk is unacked |
| `StreamProgress.LossWakesEnd` | WASM/transport/src/stream.js:481-527 | a loss wake leaves its timer exact and later than itself, and one at an exact timer's time takes a packet out of those it is about, so such wakes end |
| `StreamProgress.ScanLeaves` | WASM/transport/src/stream.js:481-508 | after a loss scan the loss timer is set exactly where packets below the largest acked are still in flight, for the first of them to be due, and none is due yet |
| `StreamProgress.StepAcked` | WASM/transport/src/stream.js:416-466 | no event lowers the bytes acked, whatever arrives, and an ack naming a packet whose chunk is unacked raises them |
| `StreamProgress.UsefulAcksDrain` | WASM/transport/src/stream.js:416-466 | over any acts at all, the bytes acked rise by at least one for each useful ack and never pass what was written, so as many as there are unacked bytes leave nothing buffered |
| `StreamProgress.AckedCounts` | WASM/transport/src/stream.js:268-272 | the bytes acked are never more than those written, and equal to them exactly when nothing is buffered |
| `StreamProgress.FitAcked` | WASM/transport/src/stream.js:580-592 | a split moves no byte |
| `StreamProgress.NamedVisited` | WASM/transport/src/stream.js:420-445 | walking ranges in order visits every number they name that is still waited on |
| `StreamProgress.KeepaliveRestoresCredit` | WASM/transport/src/stream.js:689-695 | a lost credit update does not stop a stream for good: once the peer's reader has taken what there is, the peer's next keepalive brings credit, and with it the sender has more to send and a packet in flight |
| `StreamFlow.FlightAccounted` | WASM/transport/src/stream.js:594-608 | over every sequence of events the bytes in flight are the sum of the packets in flight, and their numbers lie between the oldest waited on and the next |
| `StreamFlow.FlushWithinWindow` | WASM/transport/src/stream.js:543-553 | a flush without probes never pushes the flight past the window |
| `StreamFlow.FlushFitsPath` | WASM/transport/src/stream.js:559-608 | every DATA packet a flush sends is within the size the path is taken to carry |
| `StreamFlow.CutNeedsALaterLoss` | WASM/transport/src/stream.js:481-527 | the window falls, the threshold moves or an episode starts only for a packet lost now that was sent after the last cut or path move |
| `StreamFlow.EveryCutIsANewLoss` | WASM/transport/src/stream.js:481-527 | over every event: a cut can be undone exactly while it has suspects, and unless the path moved the window only falls, and an episode only starts, for a packet in flight before, gone after and sent since the last cut |
| `StreamFlow.UndoneOnlyWhenAllWereLate` | WASM/transport/src/stream.js:447-455 | a cut is undone exactly when the ack leaves no suspect unnamed, and the window is then at least what it was |
| `StreamFlow.SampleBlends` | WASM/transport/src/stream.js:468-479 | the least round trip is never above a sample, and the smoothed one stays between the least and the greater of itself and the sample |
| `StreamFlow.WalkVisits` | WASM/transport/src/stream.js:427-445 | walking an ack is acking, in order, exactly the numbers visited |
| `StreamFlow.WalkVisitsOnce` | WASM/transport/src/stream.js:420-445 | for any ranges, overlapping or unordered, each number still waited on is visited at most once, and nothing else |
| `StreamWindow.AckMovesWindow` | WASM/transport/src/stream.js:416-466 | an ack that leaves an earlier cut standing, and no packet sent since that cut lost, raises the window by what the packets it names earn: none for those sent before the cut or while the window does not limit sending; their bytes while that stays within the threshold; from the threshold on eight packets shared out by bytes over the window. With such a loss the window is cut from there, a sixteenth less but no less than two base packets |
| `StreamWindow.AckOneGrows` | WASM/transport/src/stream.js:431-443 | one packet acked raises the window by its own size below the threshold, by its share of eight packets from it on, and not at all where it was sent by the last cut or the window does not limit sending |
| `StreamWindow.WalkGrows` | WASM/transport/src/stream.js:423-446 | walking an ack in order earns the sizes of the packets it names, each once, whichever way they come |
| `StreamWindow.EightPacketsAWindow` | WASM/transport/src/stream.js:439-443 | past the threshold, acking a window's bytes adds at most eight packets |
| `StreamWindow.WalkTakes` | WASM/transport/src/stream.js:423-446 | an ack takes out of the flight just what it names; only the newest number it names times the round trip; any number in flight ends the timeouts in a row |
| `StreamWindow.AckTimes` | WASM/transport/src/stream.js:456-479 | the round trip kept moves just where the newest number named was in flight, an eighth of the way to the sample less the peer's delay, and the variation a quarter of the way |
| `StreamWindow.SamplesConverge` | WASM/transport/src/stream.js:468-479 | under a steady round trip what is left of the difference, and of the variation, after any number of samples, in closed form |
| `StreamWindow.LossesExact` | WASM/transport/src/stream.js:481-508 | a loss scan gives up on exactly the packets three below the largest acked, or below it and older than a millisecond and nine eighths of the latest and smoothed round trips |
| `StreamWindow.PersistentExact` | WASM/transport/src/stream.js:487-506 | loss is persistent exactly where a run of losses sent since the last cut, unbroken by number, spans more than three timeouts |
| `StreamWindow.LossCuts` | WASM/transport/src/stream.js:508-526 | losses cut the window exactly where one of them left after the last cut: a sixteenth less, or the least after persistent loss; the cut can be undone unless more than 32 were lost at once, and just those lost are suspects |
| `StreamWindow.FlushTellsLimit` | WASM/transport/src/stream.js:541-555 | sending goes on until nothing waits or the window has no room for a packet, and the window counts as the limit exactly where it has none and something waits |
| `StreamPath.TimeoutsBackOff` | WASM/transport/src/stream.js:610-647 | each timeout in a row sends two packets or more whatever the window, and the next waits twice as long from them; from the second on they fit any path, and larger ones are to be probed for again |
| `StreamPath.SendsInTurn` | WASM/transport/src/stream.js:557-608 | what goes out is the first lost chunk still unacked, else as much as is written, credited and fits, else for a probe the least unacked, under a new number and a floor that passes no number waited on |
| `StreamPath.SizeMoves` | WASM/transport/src/stream.js:218-247 | over every event packets grow exactly on an ack that names a probe, and shrink only as the path moves or on a second consecutive timeout |
| `StreamPath.AckSizes` | WASM/transport/src/stream.js:447-465 | an ack of something in flight after a drop back sends a probe again, and one that names a probe brings the larger packets |
| `StreamPath.StartOnce` | WASM/transport/src/stream.js:205-216 | a path opens once: what arrived is acked first, what was written goes out while there is room, and probing is to begin with the first ack |
| `StreamPath.MovedStartsOver` | WASM/transport/src/stream.js:218-236 | a new path starts from the first window and packet size and its own round trip, with no cut to undo, and is sent an ack first and a probe last |
| `StreamService.OwingStep` | WASM/transport/src/stream.js:336-376 | over every event, whatever arrives: bytes in order for a free reader have a turn due, so has an arrival not acked, and the peer knows of more than half a credit past what the reader took |
| `StreamService.AlwaysOwing` | WASM/transport/src/stream.js:336-376 | so over every run of an end |
| `StreamService.DeliverExact` | WASM/transport/src/stream.js:359-376 | delivering hands a free reader the front of what is in order, up to a read's worth; doubles the credit exactly for a reader that took a whole one within two round trips; and tells the peer once half of it is free, three times if the peer had used all it knew of |
| `StreamService.TurnOwing` | WASM/transport/src/stream.js:352-357 | the turn acks all that is owed |
| `StreamService.ArrivalAcked` | WASM/transport/src/stream.js:336-350 | a number out of order is acked at once, and the next in order only counted, with a turn due |
| `StreamService.ChunkEndsIff` | WASM/transport/src/stream.js:304-334 | a chunk within the credit ends the stream exactly where what is kept passes two credits, by packet bytes or by slices; one past it leaves no trace |
| `StreamService.ChunkPrunes` | WASM/transport/src/stream.js:304-311 | a chunk taken records its number first, then forgets every range below the floor its sender gives, but the newest |
| `StreamService.ClearedStep` | WASM/transport/src/stream.js:311-330 | over every event, with everything seen in order nothing is counted as waiting past it |
| `StreamService.AckTellsDelay` | WASM/transport/src/stream.js:392-412 | an ack tells how long its newest number has waited, to within half a millisecond |
| `StreamClose.BoundedStep` | WASM/transport/src/stream.js:248-290 | over every event no more is buffered than a stream may hold, and a closing stream has something buffered and a time to end by |
| `StreamClose.AlwaysBounded` | WASM/transport/src/stream.js:248-290 | so over every run of an end |
| `StreamClose.WriteBuffers` | WASM/transport/src/stream.js:248-259 | a write is taken whole and buffered exactly where the stream is neither ended nor closing and can hold it; else nothing changes |
| `StreamClose.CloseLingers` | WASM/transport/src/stream.js:273-290 | a graceful close with something buffered lingers for ten seconds, any other ends the stream at once, telling the peer three times |
| `StreamClose.OnAckDrains` | WASM/transport/src/stream.js:455-466 | the ack that leaves a closing stream nothing buffered ends it |
| `StreamClose.OnWakeDrains` | WASM/transport/src/stream.js:292-300 | a wake past its time ends a closing stream |
| `StreamClocks.ClocksRight` | WASM/transport/src/stream.js:238-247 | over every event of a stream with a path, the time last heard is the last arrival's and the time last sent that of the last packet put on the path |
| `StreamClocks.WakeDoesDue` | WASM/transport/src/stream.js:292-300 | a wake leaves no tick or probe due: the tick comes again a keepalive on, and the probe is sent again or its series ended |
| `StreamClocks.RecoveryGivesUp` | WASM/transport/src/stream.js:630-647 | a due timeout gives the peer up exactly after six in a row and ten silent seconds |
| `StreamClocks.TickExact` | WASM/transport/src/stream.js:683-697 | a tick ends a stream exactly after thirty silent seconds or with the peer given up on, and else keeps it alive with an ack after five idle ones |
| `StreamClocks.ProbeSeries` | WASM/transport/src/stream.js:657-667 | a probe not answered goes out again a timeout later, three in all, and then no more |
| `AckRanges.RecordDenotes` | WASM/transport/src/stream.js:378-390 | the ranges stay strictly descending, disjoint, non-adjacent and at most 32, and name the old numbers and the new one, less only the oldest range when there were too many |
| `AckRanges.TrimDenotes` | WASM/transport/src/stream.js:308-310 | pruning below the floor loses no number at or above it |
| `AckRanges.InsertNames` | WASM/transport/src/stream.js:379-388 | merging a number names exactly the old numbers and that one |
| `UdpStreams.UdpStream.constructor` | WASM/transport/src/stream.js:118-203 | a new stream satisfies the class invariant: both sides sound, never stalled, cuts accounted for |
| `UdpStreams.MergeIn` | WASM/transport/src/stream.js:379-388 | the merge loop computes the merge the ranges are specified by |
| `UdpStreams.UdpStream.OnChunk` | WASM/transport/src/stream.js:304-334 | the handler does what the receiving specification says: credit check, ranges, in-order bytes, gaps and the bound |
| `UdpStreams.UdpStream.Append` | WASM/transport/src/stream.js:313-323 | the absorbing loop moves out of the gaps all that the in-order end reaches, counting it |
| `UdpStreams.UdpStream.Received` | WASM/transport/src/stream.js:336-350 | an arrival is acked at once when out of order, else with the turn |
| `UdpStreams.UdpStream.Record` | WASM/transport/src/stream.js:378-390 | the ranges become the capped merge |
| `UdpStreams.UdpStream.SendAck` | WASM/transport/src/stream.js:392-412 | an ack names the ranges and the credit, three times when it gives credit to a sender that had used all |
| `UdpStreams.UdpStream.TakeHeld` | WASM/transport/src/stream.js:361-367 | what is handed over is exactly the front of what was held |
| `UdpStreams.UdpStream.Deliver` | WASM/transport/src/stream.js:359-376 | handing over, tuning the credit and telling the sender of it, as specified |
| `UdpStreams.UdpStream.OldestChunk` | WASM/transport/src/stream.js:533-539 | the indexed scan, with its compaction, finds the least offset not acked |
| `UdpStreams.UdpStream.Buffered` | WASM/transport/src/stream.js:268-272 | written bytes from the least offset unacked on |
| `UdpStreams.UdpStream.Fit` | WASM/transport/src/stream.js:580-592 | the split, and its place in the index of sent offsets |
| `UdpStreams.UdpStream.NextChunk` | WASM/transport/src/stream.js:557-578 | the first lost offset with a chunk, else fresh bytes, else for a probe the least unacked |
| `StreamSender.SendChunkKeeps` | WASM/transport/src/stream.js:594-608 | sending a chunk puts it in the air under a number never used, counts its packet into the flight, and leaves every other chunk due to be resent or in the air |
| `StreamSender.SentPacketOk` | WASM/transport/src/stream.js:594-608 | and the packet carries a run of whole cells as they were written, within the credit |
| `UdpStreams.UdpStream.Flush` | WASM/transport/src/stream.js:541-555 | the loop's packets, state and wake are those specified |
| `UdpStreams.UdpStream.WalkAck` | WASM/transport/src/stream.js:423-445 | the clamped walk over an ack's ranges |
| `UdpStreams.UdpStream.Exonerate` | WASM/transport/src/stream.js:447-455 | suspects named are dropped, and the cut undone with the last |
| `UdpStreams.UdpStream.DetectLoss` | WASM/transport/src/stream.js:481-527 | the loss scan, the cut and its suspects, as specified |
| `UdpStreams.UdpStream.OnAck` | WASM/transport/src/stream.js:416-466 | an ack's whole effect, to the closing of a drained stream |
| `UdpStreams.UdpStream.SendProbe` | WASM/transport/src/stream.js:657-667 | a probe under a number of its own, up to the bound |
| `UdpStreams.UdpStream.ProbeAcked` | WASM/transport/src/stream.js:669-675 | an ack that names any probe moves the path to the larger size |
| `StreamFlow.ArmCovers` | WASM/transport/src/stream.js:620-628 | with anything in flight, the wake set is no later than recovery is due |
| `UdpStreams.UdpStream.OnRecovery` | WASM/transport/src/stream.js:630-647 | losses declared, a gone peer ended, or two probes past the window |
| `StreamFlow.TickKeepsAlive` | WASM/transport/src/stream.js:689-695 | a tick ends the stream exactly when its peer is silent too long or given up on; otherwise, with a path, something has gone out within a keepalive's time |
| `UdpStreams.UdpStream.Start` | WASM/transport/src/stream.js:205-216 | keeps the class invariant |
| `UdpStreams.UdpStream.Repath` | WASM/transport/src/stream.js:218-236 | keeps the class invariant; the window and size start over |
| `UdpStreams.UdpStream.Receive` | WASM/transport/src/stream.js:238-247 | any packet keeps the class invariant |
| `UdpStreams.UdpStream.Send` | WASM/transport/src/stream.js:251-259 | bytes are taken whole or refused whole, exactly when closed, closing or past the bound |
| `UdpStreams.UdpStream.Turn` | WASM/transport/src/stream.js:352-357 | keeps the class invariant |
| `UdpStreams.UdpStream.Reader` | WASM/transport/src/stream.js:261-266 | keeps the class invariant |
| `UdpStreams.UdpStream.ReadDone` | WASM/transport/src/stream.js:361-376 | keeps the class invariant |
| `UdpStreams.UdpStream.CloseStream` | WASM/transport/src/stream.js:274-283 | a graceful close waits while anything is buffered |
| `UdpStreams.UdpStream.OnWake` | WASM/transport/src/stream.js:292-300 | what is due is done, and the next wake is no later than recovery while anything is in flight |
| `UdpStreams.UdpStream.EndStream` | WASM/transport/src/stream.js:285-290 | the peer is told three times, then the stream stops |
| `LoaderRuns.FloorNeverFalls` | WASM/host/slots.ts:149-153 | over every run, with a crash after any file operation, any read or write failing and any staging, the floor's version never decreases, while each loader started reads the committed host its predecessor read, or has a genesis no older than that host |
| `LoaderRuns.OpsKeepFloor` | WASM/host/slots.ts:236-251 | no file operation of any call lowers the floor |
| `LoaderRuns.RestartKeepsFloorIff` | WASM/host/slots.ts:130-153 | starting another loader, no older, on the same files keeps the floor if and only if it implements the committed host's ABI or its genesis is no older than that host |
| `LoaderRuns.NewAbiLowersFloor` | WASM/host/slots.ts:130-153 | a run where neither holds: the committed host is of one ABI, the loader started next of another, and the floor falls from 10 to 6 |
| `LoaderRuns.BootsFloorOrAbove` | WASM/host/slots.ts:167-194 | without --host a boot runs the floor's host, or the pending one exactly when it is strictly above, untried and could be marked |
| `LoaderRuns.NeverRetried` | WASM/host/slots.ts:167-194 | a staged host that was booted is not booted again, whatever crashed or failed, unless staged anew or its own flow ended without serving |
| `LoaderRuns.CommitNeedsWindow` | WASM/host/slots.ts:216-251 | the committed file changes only to a host whose own boot's flow ended in service a window before, with no failure, crash or reboot from that boot on |
| `LoaderRuns.SuccessorKept` | WASM/host/slots.ts:196-251 | a failed trial or a commit, crashed part way or not, leaves a successor staged during the trial pending |
| `LoaderRuns.FailedDropsItsOwn` | WASM/host/slots.ts:196-214 | a failed trial drops exactly what reads as its own version |
| `LoaderRuns.ServedIsCommittedIff` | WASM/host/slots.ts:216-251 | a trial that serves through its window is committed exactly when the loader does not mean to boot again; otherwise it is dropped at that boot |
| `LoaderRuns.FlagIffLeftOver` | WASM/host/slots.ts:216-266 | over every run the loader means to boot again exactly while a staging under "now", made before its flow ended in service, has seen no flow end and no crash since: a failed trial and the boot after it leave it so |
| `LoaderRuns.ServedIsCommittedUnlessLeftOver` | WASM/host/slots.ts:216-251 | so over every run a trial that serves through its window is committed exactly when no such staging is left over |
| `LoaderRuns.HealthySuccessorDropped` | WASM/host/slots.ts:196-234 | a run where one is left over: a trial stages a successor under "now" and fails, and the successor, booted and serving, is dropped |
| `LoaderRuns.OnlyCommitWrites` | WASM/host/slots.ts:239-251 | only a window's end writes the committed file, and then the host on trial |
| `LoaderRuns.StagedPends` | WASM/host/slots.ts:253-266 | a blob handed over is pending and untried exactly where updates are on, it reads and it can be written; under "now", outside service, the loader then means to boot again |
| `LoaderRuns.StagedBootsNext` | WASM/host/slots.ts:167-194 | and the next boot of such a blob, newer than the floor, is of it, marked first |
| `LoaderRuns.UnservedBootsAgain` | WASM/host/slots.ts:216-234 | a trial whose flow ends without serving is unmarked, and the next boot is of it again |
| `LoaderRuns.FixedBootsAlone` | WASM/host/slots.ts:167-175 | a boot under --host leaves the files, and what is on trial, alone |
| `LoaderRuns.BrokenStops` | WASM/host/slots.ts:149-165 | a boot is refused exactly where the committed host cannot be read or is broken, and the files are left |
| `Loaders.Loader.constructor` | WASM/host/slots.ts:108-127 | a loader starts over the files left, with nothing on trial |
| `Loaders.Loader.Choose` | WASM/host/slots.ts:167-194 | its boot, its memory and the files after each of its operations are those specified |
| `Loaders.Loader.Failed` | WASM/host/slots.ts:196-209 | as specified, operation by operation |
| `Loaders.Loader.Ended` | WASM/host/slots.ts:216-234 | as specified; the window's timer is set under this boot's number |
| `Loaders.Loader.Commit` | WASM/host/slots.ts:236-251 | as specified, operation by operation |
| `Loaders.Loader.Stage` | WASM/host/slots.ts:253-266 | as specified: the pending file first, then the old mark removed |
| `Loaders.Loader.ClearPending` | WASM/host/slots.ts:155-159 | the host before its mark, so a crash between leaves no host unmarked |
| `ByteQueue.Pieces.constructor` | WASM/transport/src/util.js:124-133 | an empty queue |
| `ByteQueue.Pieces.Push` | WASM/transport/src/util.js:137-161 | the bytes join the end of the plain sequence, and no byte queued nor any view handed out changes, though the accumulator grows in place |
| `ByteQueue.Pieces.GrowInPlace` | WASM/transport/src/util.js:148-154 | growing in place extends the last piece and leaves every other piece and every view handed out as they were |
| `ByteQueue.Pieces.Regrow` | WASM/transport/src/util.js:155-160 | the new accumulator holds the old piece's bytes and the new |
| `ByteQueue.Pieces.Shift` | WASM/transport/src/util.js:163-172 | dropping the front piece, with its compaction, leaves the rest of the sequence |
| `ByteQueue.Pieces.Peek` | WASM/transport/src/util.js:174-184 | a copy of the front of the sequence, nothing consumed |
| `ByteQueue.Pieces.ByteAt` | WASM/transport/src/util.js:186-195 | the i-th byte of the sequence, 0 past its end |
| `ByteQueue.Pieces.Take` | WASM/transport/src/util.js:197-199 | the next bytes and the rest of the sequence; a view stays equal to what it was when handed out |
| `ByteQueue.Pieces.TakeCopy` | WASM/transport/src/util.js:201-203 | the next bytes in a new buffer behind the prefix |
| `ByteQueue.Pieces.Consume` | WASM/transport/src/util.js:205-216 | across pieces, the buffer is filled with exactly the next bytes |
| `Fifos.Fifo.constructor` | WASM/host/util.ts:118-120 | an empty queue |
| `Fifos.Fifo.Push` | WASM/host/util.ts:125 | joins the end |
| `Fifos.Fifo.Peek` | WASM/host/util.ts:127-128 | the oldest entry, none only when empty |
| `Fifos.Fifo.At` | WASM/host/util.ts:130-132 | the i-th entry, oldest first |
| `Fifos.Fifo.Shift` | WASM/host/util.ts:134-139 | the oldest entry off the front |
| `Fifos.Fifo.Drop` | WASM/host/util.ts:141-150 | the oldest n off the front, across compactions |
| `Fifos.Fifo.Size` | WASM/host/util.ts:122-123 | the number of live entries |
| `Fifos.Fifo.Clear` | WASM/host/util.ts:152 | empties the queue |
| `FramingExact.CapAlways` | WASM/transport/src/framing.js:14-52 | over any reads, in either codec, the cap is the handshake's until a message given out raises it, and the link's from then on |
| `FramingExact.LengthGivesAll` | WASM/transport/src/framing.js:29-52 | from the start of a link, however cut into reads, messages are given out whole and in order up to the first over the cap in force as it comes, and the link is refused exactly there, or not at all |
| `FramingExact.WsGivesAll` | WASM/transport/src/framing.js:216-335 | the same of WebSocket frames, with pings answered in their place and a close the end |
| `FramingExact.HeaderExact` | WASM/transport/src/framing.js:108-137 | a header is read exactly where the bytes are a frame's in the shortest form, masked as this end reads them, of a frame that may be and within the cap |
| `FramingExact.HeaderSettled` | WASM/transport/src/framing.js:108-137 | ten bytes settle whether one is |
| `FramingExact.OrderExact` | WASM/transport/src/framing.js:275-335 | within the cap frames are taken one after another exactly while none is a close, a fragment's next comes only inside a message, and another message only outside one |
| `FramingExact.FragmentsGive` | WASM/transport/src/framing.js:288-320 | a message in fragments is given out whole behind the pongs between, or the link refused where they pass the cap in force |
| `FramingExact.HeadEndExact` | WASM/transport/src/framing.js:236-252 | an upgrade head ends at its first blank line, within sixteen kilobytes or not at all |
| `Framing.SlicingDoesNotMatter` | WASM/transport/src/framing.js:32-330 | for both codecs, however the stream was cut into reads, the messages, the pongs, what waits and the point of refusal are those of reading it at once |
| `Framing.NextSteady` | WASM/transport/src/framing.js:109-137 | what is decided on some bytes is decided the same with more behind them |
| `Framing.FindHeadSteady` | WASM/transport/src/framing.js:236-251 | so is where the upgrade head ends, within its ceiling |
| `Framing.WsRoundTrip` | WASM/transport/src/framing.js:277-330 | what one end frames, data, pings, pongs and closes, masked under any keys or unmasked, the other parses to the same, up to the first over the cap then in force or the close |
| `Framing.LengthRoundTrip` | WASM/transport/src/framing.js:20-25 | what one end frames the other delivers, up to the first over the cap then in force |
| `Framing.WsEndToEnd` | WASM/transport/src/framing.js:92-330 | however the frames one end wrote were cut into reads, the other ends with exactly what they tell, having taken exactly the frames before the one it refuses, if any |
| `Framing.LengthEndToEnd` | WASM/transport/src/framing.js:20-54 | so for length-prefixed messages, from the start of a link |
| `Framing.ToldWhole` | WASM/transport/src/framing.js:40-54 | within the cap that is every message, in order |
| `Framing.HeadReads` | WASM/transport/src/framing.js:92-107 | a header written in the shortest form reads back as it was written, or is refused over the cap |
| `Framing.FrameReads` | WASM/transport/src/framing.js:92-137 | a whole frame, masked or not, is taken as one frame with its clear payload |
| `Framing.FragmentsJoin` | WASM/transport/src/framing.js:296-318 | a message in fragments, with pings and pongs anywhere between, is delivered whole with its last fragment, or refused where it passes the cap |
| `Framers.LengthFramer.constructor` | WASM/transport/src/framing.js:13-18 | a parser at the start of its stream |
| `Framers.LengthFramer.Frame` | WASM/transport/src/framing.js:20-25 | the message behind its length |
| `Framers.LengthFramer.Push` | WASM/transport/src/framing.js:32-54 | a read makes of the stream what the specification makes of it, over the real byte queue |
| `Framers.WsFrameBytes` | WASM/transport/src/framing.js:92-107 | the frame, or with a key the request that masks to it |
| `Framers.WsFramer.constructor` | WASM/transport/src/framing.js:139-175 | a parser at the start of its stream |
| `Framers.WsFramer.ScanHead` | WASM/transport/src/framing.js:236-251 | the rolling four-byte scan finds the head's end where a scan of the whole stream does |
| `Framers.WsFramer.Push` | WASM/transport/src/framing.js:219-234 | a read makes of the stream what the specification makes of it |
| `Framers.WsFramer.WsHead` | WASM/transport/src/framing.js:109-137 | the header read off the front, nothing consumed |
| `Framers.WsFramer.TakePayload` | WASM/transport/src/framing.js:283-295 | the frame off the queue and its payload in the clear |
| `Framers.WsFramer.HandleFrame` | WASM/transport/src/framing.js:296-318 | fragments, interleaved control frames and refusals as specified |
| `Framers.WsFramer.DispatchFrame` | WASM/transport/src/framing.js:322-330 | a message delivered, a ping answered, a close refused |
| `Masking.MaskRun` | WASM/assembly/ws/index.ts:54-82 | word by word, the run ends as byte i under key octet i mod 4, and nothing outside it changes |
| `Masking.MaskUndoes` | WASM/assembly/ws/index.ts:54-82 | masking twice is the identity |
| `Masking.XorWords` | WASM/assembly/ws/index.ts:70-73 | XOR of little-endian words is XOR byte by byte |
| `Masking.KeyWords` | WASM/assembly/ws/index.ts:65-67 | the two words are the key's four octets once and twice, little-endian |
| `Masking.OpMask` | WASM/assembly/ws/index.ts:143-158 | a frame's payload is masked under the key in its header, a short frame refused and left |
| `Masking.MaskFrameUndoes` | WASM/assembly/ws/index.ts:143-158 | masking a frame twice gives it back |
| `Utf8.DecodeEncode` | WASM/host/utf8.ts:8-51 | decoding what was encoded replaces each lone surrogate by U+FFFD, and nothing else |
| `Utf8.RoundTripIff` | WASM/host/utf8.ts:8-51 | so the round trip is the identity on exactly the well-formed strings |
| `Utf8.ScrubSettles` | WASM/host/utf8.ts:6-20 | what is left is well formed |
| `Utf8.Utf8Encode` | WASM/host/utf8.ts:8-28 | the loop writes the encoding, within three bytes a unit |
| `Utf8.Utf8Decode` | WASM/host/utf8.ts:30-51 | the loop, with its joins every some thousand units, decodes any bytes as specified |
| `Handshake.PreimagesSeparate` | WASM/transport/src/ake.js:57-67 | no two derivations of different purposes hash the same bytes, and one only with the same fields |
| `HandshakeRun.HandshakeAgrees` | WASM/transport/src/ake.js:630-744 | when the three messages arrive as sent, both ends authenticate with one contact secret, root and transcript, each sending under the key the other receives under, each naming the other |
| `HandshakeRun.EqualKeysEqualSessions` | WASM/transport/src/ake.js:736-744 | where the hash does not collide on the two sessions' inputs, equal keys mean equal secrets and transcripts, and no key of one direction is one of the other |
| `HandshakeRun.EqualKeysNameEachOther` | WASM/transport/src/ake.js:686-746 | whatever messages arrived, two ends that authenticated with equal session keys, where the hash does not collide on what they hashed, named each other: the accept names the dialer's own identity, and, where its signature verifies under no other identity, the dialer names the accept's |
| `HandshakeReplay.AnswersIff` | WASM/transport/src/ake.js:638-669 | an accept answers exactly the first messages of the right width and suite that prove one of its contact secrets, with a key not seen, the limiter's leave, and keys that can be used; any other gets silence |
| `HandshakeReplay.NoneTwice` | WASM/transport/src/ake.js:220-231 | a replayed first message, on whatever link and under whatever secret, passes again only after 4096 others have |
| `HandshakeReplay.DialerIff` | WASM/transport/src/ake.js:686-712 | a dialer authenticates exactly on an answer under both secrets whose signature is the dialed peer's, another than itself that it admits; what does not open meets silence, and what opens and proves nothing closes the link |
| `HandshakeReplay.AcceptIff` | WASM/transport/src/ake.js:722-734 | an accept authenticates exactly where the last message names another that signed the transcript, that it admits and expects; one that proves itself and is not wanted closes the link, and anything less meets silence |
| `HandshakeReplay.SecretsGo` | WASM/transport/src/ake.js:554-565 | a link that authenticates or refuses has let go of its handshake secrets |
| `HandshakeReplay.RefusalStands` | WASM/transport/src/ake.js:535-548 | after a refusal no message is looked at |
| `HandshakeRun.DialerDerives` | WASM/transport/src/ake.js:686-720 | whatever answer arrives, a dialer that authenticates did so over a whole session, with the peer it dialed, other than itself, whose signature over that transcript verified |
| `HandshakeRun.AcceptDerives` | WASM/transport/src/ake.js:722-734 | whatever arrives, an accept that authenticates did so over a whole session, under one of its own contact secrets, with a peer other than itself, whose signature over that transcript verified |
| `HandshakeRun.MessageOk` | WASM/transport/src/ake.js:537-548 | every message, in any state of a handshake, keeps this: before, the transcript is of the messages taken and sent; after, there is such a session behind the keys |
| `HandshakeRun.Msg2Ok` | WASM/transport/src/ake.js:686-720 | a dialer that authenticates on its answer admits the peer it dialed, and the session is of both messages and its own last |
| `HandshakeRun.Msg3Ok` | WASM/transport/src/ake.js:722-734 | an accept that authenticates admits the peer named, and it is the one it expects, if it expects one |
| `HandshakeRun.FirstMessage` | WASM/transport/src/ake.js:630-637 | the first message has its full width, carries the dialer's keys, and its proof opens under the contact secret it was made with |
| `HandshakeRun.TrySecretsFinds` | WASM/transport/src/ake.js:644-653 | the secrets are tried to the one the probe opens under |
| `HandshakeRun.SecondMessage` | WASM/transport/src/ake.js:639-684 | an honest msg1 is answered, and both ends hold the same secrets |
| `RecordRuns.DeliveredIsAPrefix` | WASM/transport/src/ake.js:785-804 | in every run, whatever arrives, the frames passed on are a prefix of those the other end sealed, and epoch, counter and ratcheted key agree at every record |
| `RecordRuns.CleanMeansComplete` | WASM/transport/src/ake.js:470-491 | a link ends clean exactly when everything the other end ever sealed was passed on, its goodbye last |
| `RecordRuns.CleanMeansNothingMissing` | WASM/transport/src/ake.js:384-462 | from end to end: a link that ended clean passed on, in order, every frame the other end's record layer ever took: those kept when it authenticated, then those taken after |
| `RecordRuns.CleanMeansKeptAndTaken` | WASM/transport/src/ake.js:384-462 | the same of what callers saw: a link that ended clean passed on the frames still queued at the other end when `onAuth` left that link open, none of them when it did not, and then every frame taken after |
| `RecordEnds.TraceTakes` | WASM/transport/src/ake.js:384-411 | over any run an end has taken what it kept on authenticating and then just the frames its `send` takes: while open, not empty, within the size, the epochs and the queue bounds |
| `RecordEnds.WelcomedFronted` | WASM/transport/src/ake.js:567-579 | an end whose `onAuth` or limiter ends it as it authenticates has none of its queued frames among those to seal; one left open has all of them, first and in order |
| `RecordGoodbye.CloseSaysGoodbye` | WASM/transport/src/ake.js:425-472 | from a deliberate close of an open link on, with no failure and every record taken by the channel, once the chain is empty everything taken is sealed in order and then the goodbye, exactly where that leaves the epochs not used up |
| `RecordGoodbye.WorkEmpties` | WASM/transport/src/ake.js:425-462 | and every step of the chain takes one task off it |
| `RecordGoodbye.GoodbyeEndsClean` | WASM/transport/src/ake.js:470-491 | in any run, where an end said its goodbye and its peer is open and idle, delivering the records left in order, within the peer's limits, ends that link clean with every frame taken passed on |
| `RecordGoodbye.FailureSaysNothing` | WASM/transport/src/ake.js:430-475 | a failure is never followed by a goodbye |
| `RecordGoodbye.FailureSealsNothing` | WASM/transport/src/ake.js:430-475 | nor, once the frames queued before authentication are out, by any record at all |
| `RecordGoodbye.GoodbyeNotAnswered` | WASM/transport/src/ake.js:433-447 | over every run a goodbye is never answered with one |
| `RecordGoodbye.RefusedFrameFails` | WASM/transport/src/ake.js:518-525 | a frame the channel does not take fails the link, with nothing more to say |
| `RecordGoodbye.RefusedRecordAborts` | WASM/transport/src/ake.js:787-805 | a record that does not open ends the link as the peer's doing, passing nothing on |
| `RecordGoodbye.EndsAs` | WASM/transport/src/ake.js:479-497 | what ended a link is what it says: a close local, a failure aborted or local, a lost channel truncated |
| `RecordGoodbye.RefusedSend` | WASM/transport/src/ake.js:386-411 | a frame not taken fails a link whose queue is full, closes one whose epochs are used up, and else changes nothing |
| `RecordGoodbye.QueueBytesBounded` | WASM/transport/src/ake.js:395-411 | over every run the bytes counted as queued are those of the frames on the chain, within their bound |
| `RecordEnds.AlwaysWhole` | WASM/transport/src/ake.js:403-462 | over every run of one end, whatever arrives: while it lives or parts, what it took to send is what it sealed and what its chain still holds; with the goodbye said, all of it was sealed |
| `RecordEnds.NoNonceTwice` | WASM/transport/src/ake.js:761-783 | over every run of one end, whatever arrives: no two records it sealed share a nonce, though the epoch limit is checked only as a frame is queued |
| `RecordRuns.NextRecordOpens` | WASM/transport/src/ake.js:785-804 | the next record of an open link is never refused |
| `RecordRuns.OpensNext` | WASM/transport/src/ake.js:785-790 | where the cipher opens nothing else at the receiver's own place, a record that opens there is the next the other end sealed |
| `RecordRuns.HonestRecordsAreGenuine` | WASM/transport/src/ake.js:761-804 | the hypothesis on arrivals can be met: under a cipher of the real overhead that only tells nonces apart, every record an end sealed meets it, though its keys all repeat |
| `RecordEnds.EpochsBounded` | WASM/transport/src/ake.js:384-412 | over every run of one end, whatever arrives: its queue is counted and within its bound, and its epochs pass the limit by at most what could be queued |
| `RecordEnds.AlwaysEndOk` | WASM/transport/src/ake.js:384-491 | the invariant behind these: keys and places in step with the records sealed and opened, and the goodbye last |
| `Records.NoncesDiffer` | WASM/transport/src/ake.js:761-767 | different places of a direction have different nonces |
| `Records.SealInStep` | WASM/transport/src/ake.js:775-783 | sealing a record keeps key, epoch and counter where the count of records puts them |
| `Records.OpenInStep` | WASM/transport/src/ake.js:790-798 | so does opening one |
| `Records.WorkKeeps` | WASM/transport/src/ake.js:433-462 | every step of the work chain keeps this, and the goodbye the last record sealed |
| `Links.HandshakeBeginsLink` | WASM/transport/src/ake.js:567-579 | two links that shook hands begin in lockstep, each way under the other's key |
| `Links.Link.constructor` | WASM/transport/src/ake.js:238-309 | a link before its handshake, with nothing queued, satisfies the class invariant |
| `Links.Link.OpenProbe` | WASM/transport/src/ake.js:648-653 | the loop takes each secret in turn to the first that opens |
| `Links.Link.OnMessage` | WASM/transport/src/ake.js:537-579 | any message keeps the class invariant, whatever the limiter and `onAuth` do: a link that authenticates has a whole session behind its keys, signed by the peer it names; left open, its records begin with the frames queued, oldest first; ended there, none is sealed and the queue is handed over whole |
| `Links.Link.BecomeAuthed` | WASM/transport/src/ake.js:567-579 | a failed hold ends the link as a failure, a lost tie-break as a close; otherwise the queued frames are sealed first |
| `Links.Link.OnMsg1` | WASM/transport/src/ake.js:639-684 | as specified: refusals stall, a proved msg1 is answered |
| `Links.Link.Queue` | WASM/transport/src/ake.js:413-418 | the newest frames are kept, the oldest dropped, only while past a bound |
| `Links.Link.Send` | WASM/transport/src/ake.js:384-412 | any frame keeps the class invariant: it is taken, and then not missing, or refused, or ends the link |
| `Links.Link.Close` | WASM/transport/src/ake.js:464-465 | keeps the class invariant: lockstep from the session's own keys, nothing taken to send missing, the goodbye last |
| `Links.Link.Abort` | WASM/transport/src/ake.js:467-468 | keeps the class invariant |
| `Links.Link.Work` | WASM/transport/src/ake.js:335-339 | any step of the chain, its send taken or not, keeps the class invariant |
| `Links.Link.OnChannelClosed` | WASM/transport/src/ake.js:806-812 | keeps the class invariant, at any moment |
| `Links.Link.Arrive` | WASM/transport/src/ake.js:509-518 | any record arriving keeps the class invariant |
| `RealmQueue.SettlesOnce` | WASM/host/realm-queue.ts:221-230 | in every run each call settles at most once, and one that has not is waiting or begun |
| `RealmQueue.StartsInOrder` | WASM/host/realm-queue.ts:251-271 | in every run calls start in the order admitted, each strictly before its deadline |
| `RealmQueue.NeverStuck` | WASM/host/realm-queue.ts:231-243 | in every run a free realm with calls waiting has a turn scheduled |
| `RealmQueue.DeadlinesCovered` | WASM/host/realm-queue.ts:112-158 | in every run a bounded call not settled has the timer due within a millisecond past its deadline, and a timer that fires settles all that are due |
| `RealmQueue.StepOk` | WASM/host/realm-queue.ts:198-291 | every event keeps the invariant behind these |
| `RealmQueue.TimerOk` | WASM/host/realm-queue.ts:121-135 | expiring what is due and re-arming keeps every other deadline covered |
| `RealmQueue.AdmitOk` | WASM/host/realm-queue.ts:273-290 | a call may expire as it is admitted, and then does not queue |
| `RealmOutcomes.ResultSettles` | WASM/host/realm-queue.ts:223-230 | in every run a result settles its call if nothing has, frees the realm if that call had it, and changes nothing of any other |
| `RealmOutcomes.DeferralFrees` | WASM/host/realm-queue.ts:239-244 | the end of a deferred call's turn frees the realm and settles nothing |
| `RealmOutcomes.TurnTakes` | WASM/host/realm-queue.ts:251-271 | a turn takes calls from the front until one stays: each already settled, settled unstarted exactly where its time is up or the realm not ready, started and settled exactly where it throws, or started and given the realm |
| `RealmOutcomes.TimerSettles` | WASM/host/realm-queue.ts:121-135 | the timer settles exactly the calls whose time is up to within its millisecond, and frees the realm exactly where one of them had it |
| `RealmOutcomes.AdmitWaits` | WASM/host/realm-queue.ts:273-291 | a call admitted is last in the queue unless its time was up as it came, and nothing else settles then but what is due |
| `HostCalls.AnswerSettles` | WASM/host/realm-queue.ts:178-197 | an answer in time settles its call at once, and one too late changes nothing |
| `HostCalls.ExpirySettles` | WASM/host/realm-queue.ts:121-135 | expired calls settle in turn with their microtasks, and no deadline is taken out early |
| `HostCalls.SettledOnce` | WASM/host/realm-queue.ts:171-192 | in every run a host call settles at most once, and until then is pending, unbounded, or has its microtask to come |
| `HostCalls.HappenConserves` | WASM/host/realm-queue.ts:178-192 | each call issued is in exactly one of those places |
| `HostCalls.HostDeadlinesCovered` | WASM/host/realm-queue.ts:112-192 | in every run a host call's deadline still pending has the timer due within a millisecond past it, and a timer that fires takes out all that are due |
| `RealmHosts.DeadlineQueue.Arm` | WASM/host/realm-queue.ts:121-135 | the loop takes out exactly what is due, in order, and sets the timer for the soonest left |
| `RealmHosts.DeadlineQueue.Add` | WASM/host/realm-queue.ts:137-143 | what is due at once is taken out, only when the timer is set again |
| `RealmHosts.DeadlineQueue.Drop` | WASM/host/realm-queue.ts:144-151 | removes the deadline |
| `RealmHosts.SerializedRealm.constructor` | WASM/host/realm-queue.ts:214-219 | idle, satisfying the invariant |
| `RealmHosts.SerializedRealm.Call` | WASM/host/realm-queue.ts:273-290 | an admission keeps the invariant, as specified |
| `RealmHosts.SerializedRealm.EnterNext` | WASM/host/realm-queue.ts:251-271 | the loop keeps the invariant, as specified |
| `RealmHosts.SerializedRealm.OnTimer` | WASM/host/realm-queue.ts:121-135 | keeps the invariant, as specified |
| `RealmHosts.SerializedRealm.OnResult` | WASM/host/realm-queue.ts:266-268 | keeps the invariant, as specified |
| `RealmHosts.SerializedRealm.OnDeferred` | WASM/host/realm-queue.ts:269 | keeps the invariant, as specified |
| `RealmHosts.SerializedRealm.Finish` | WASM/host/realm-queue.ts:221-230 | settles once |
| `Outbound.AlwaysWithinCeilings` | WASM/services/link.ts:153-229 | over every run, whatever the adapters answer or fail to, the node's totals are the sums over live links, each charge the sum of its queued sizes, and all four ceilings hold |
| `OutboundAdmission.SendAdmits` | WASM/services/link.ts:197-217 | a write to a live link, step by step as the adapters answer: the link stays exactly where its adapter answers, and the write is empty, or fits the link's two ceilings after that and the node's two after a sweep if need be, and the adapter takes it; it is then charged for the fewest last writes, this one among them, that cover the report, and the others lose only what a sweep finds gone |
| `OutboundAdmission.EveryWriteJudged` | WASM/services/link.ts:197-217 | so of every write in every run, whatever the adapters answer |
| `OutboundAdmission.SettleLeaves` | WASM/services/link.ts:184-196 | a settle takes off exactly the writes that are gone whole |
| `OutboundAdmission.AlwaysListed` | WASM/services/link.ts:310-320 | over every run a sweep asks every live link, and no other |
| `Outbound.AlwaysCovered` | WASM/services/link.ts:153-229 | over every run of adapters that drain in order and say so, moreover, no charge is below its adapter's backlog |
| `Outbound.WriteCovered` | WASM/services/link.ts:198-217 | after each write the link written to is charged less than one write more than its adapter holds |
| `Outbound.SettleTight` | WASM/services/link.ts:184-196 | releasing what drained leaves a charge that covers the backlog by less than one write |
| `Outbound.SendOk` | WASM/services/link.ts:198-217 | any write, whatever the adapters answer, keeps the sums and the ceilings |
| `Outbound.SweepOk` | WASM/services/link.ts:310-322 | the sweep on a refusal keeps them |
| `Outbound.DropOk` | WASM/services/link.ts:222-228 | so does a link going, whose whole charge is released |
| `TransportHosts.LinkOutboundOwner.Settle` | WASM/services/link.ts:184-196 | the loop releases exactly the drained prefix, from the link and from the node |
| `TransportHosts.LinkOutboundOwner.Send` | WASM/services/link.ts:198-217 | as specified, through the node's own reservation |
| `TransportHosts.TransportHost.constructor` | WASM/services/link.ts:239-269 | no links, nothing charged |
| `TransportHosts.TransportHost.ReserveOutbound` | WASM/services/link.ts:305-322 | room checked, every link asked on a refusal, and checked again |
| `TransportHosts.TransportHost.Register` | WASM/services/link.ts:511-523 | a new link with nothing charged |
| `TransportHosts.TransportHost.SendOn` | WASM/services/link.ts:396-407 | keeps the sums and ceilings; a write that cannot be taken ends its link |
| `TransportHosts.TransportHost.ChannelClosed` | WASM/services/link.ts:617-623 | the link's charge is released once |
| `Delivery.AlwaysSane` | WASM/transport/src/router.js:175-191 | over every run the total is the sum over the peers and within the window, each peer's share is the sum of its own, and none holds more than leaves room for a largest request |
| `Delivery.NewcomerAdmitted` | WASM/transport/src/router.js:175-183 | a peer with nothing waiting is admitted a largest request while at most one other waits |
| `Delivery.AlwaysRoomIff` | WASM/transport/src/router.js:175-183 | for every window of the shape the source computes, a peer with nothing waiting is admitted a largest request in every run if and only if at most one other can be waiting |
| `Delivery.TwoCanFill` | WASM/transport/src/router.js:175-183 | in any such window two peers can fill it to the last of its weight, and then no request of any weight from a third is admitted |
| `Delivery.OneFills` | WASM/transport/src/router.js:175-183 | one peer alone can come to any total up to a largest request short of the window, in requests it may send |
| `Delivery.TakenIff` | WASM/transport/src/router.js:175-191 | in every run a request is taken exactly where its peer has none unanswered and the window holds it, or has some and it leaves room for a largest request and passes no equal share of the window; an answer takes off just its own |
| `Delivery.StepSane` | WASM/transport/src/router.js:258-286 | every request and every answer keeps this |
| `Delivery.HoldCounts` | WASM/transport/src/router.js:185-191 | each peer's count stays the sum of what it has waiting, and is dropped at none |
| `Delivery.ReqRes.constructor` | WASM/transport/src/router.js:150-160 | nothing waiting |
| `Delivery.ReqRes.OnRequest` | WASM/transport/src/router.js:279-285 | admitted exactly when the rule says, and counted |
| `Delivery.ReqRes.Done` | WASM/transport/src/router.js:283-284 | an answer takes its weight off |
| `Delivery.AdmittedFair` | WASM/transport/src/router.js:175-191 | admitting what the rule admits keeps the window, and leaves every peer's share room for a largest request beside it |

## Left out

- Packet, record and slot encodings beyond the framers: the stream's 48-bit wire fields and their lengths are taken as the packets' fields, unbounded.
- The stream's sockets, wakes and turns list: the path is a log of the packets put on it, when a wake or a turn comes is up to the run, and its `Pieces` queues are held as values; the queue itself is proved apart.
- Clocks that move within one handler: the stream and the realm queue read theirs once per event.
- What clears memory only: consumed slots of `Pieces` set to null, secrets zeroed, payloads dropped.
- `loaderFlags`, `withoutOp`, `hostArgs`, paths and log lines of the loader: they would add only easy members. The loader assumes that a removal succeeds, that one loader uses the directory, and that a loader started later has a genesis no older; it may be of another ABI, and `RestartKeepsFloorIff` says exactly when that keeps the floor. For successors only, it assumes that a staged blob is newer than the host on trial.
- The drivers that call the loader: its calls come in any order.
- WebSocket upgrade contents: whether a head is accepted is a parameter, as are the request and the answer written; SHA-1 and base64 of the accept value are not modelled.
- Masked sending on a write chain, the entropy pool of masking keys, and the order of writes: a frame is what its key makes of it.
- Where frames go that a link hands over when its `onAuth` ends it, or that its bound drops before authentication: the first is the router's, the second is what `Links.Link.Queue` states.
- Fair delivery is a hypothesis of the progress theorem, and so is that neither end is ended by silence, a close or the receiver's bound; rounds follow each other without other acts between, while `StreamProgress.UsefulAcksDrain` allows any.
- The primitives themselves, randomness, and the limiter: their answers are parameters of each handshake step.
- Interleaving inside one step of a link's work chain: a step is atomic, and a channel that refuses a record is a parameter of it. The queue's drop-oldest rule is proved; when idle and handshake deadlines fire is up to the run.
- Integrity of the cipher is assumed of the records that arrive, not proved; what an attacker holding the keys could do is out of scope.
- Inbound reads of `TransportHost`, datagram sockets, listeners, and what is logged: a link dropped while paused keeps its held reads charged, so no sum over live links holds there.
- Where a request's weight comes from: the delivery window takes any weight up to the largest request's.
- The relayed-request window, correlations and responses of `ReqRes`: its per-peer entry may be dropped while older requests are outstanding.
- Rounding: the congestion window is a real, and the delivery window's weights are whole in a fraction of a byte.
- `invoke` answering re-entrantly in the realm queue: a nested call is an admission of its own after it; `disarmAll` and disposal are not modelled.
- `settleByDeadline` rejecting a bad duration, and microtask order across queues: a duration is given as its deadline.
- A claim that an honest sender never trips the receiver's slice bound: very small writes make very small chunks, so only the bound itself is proved.
- UDP punching, relays, direct paths, the router's link tables, freshness marks and policy: timing-driven, or easy maps and counters.
