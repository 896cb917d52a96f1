# Pi1MHz protocol and storage cores, in Dafny

A model of the parts of Pi1MHz that carry the most state, with proofs about whole runs:

- **AUN engine** (`src/AUN/aun.c`, with the immediate commands of `src/AUN/aun_emulator.c`): Econet over
  UDP. `AunTypes`, `AunRx`, `AunTx`, `AunImm` and `AunSpec` state every call as a function on values and a run
  as a sequence of calls (`AunSpec.Exec`). `AunQueue`, `AunRxInv`, `AunTxInv`, `AunAck`, `AunImmInv`,
  `AunDelivery`, `AunFate`, `AunOutcome`, `AunReplay`, `AunEndToEnd`, `AunRepeats` and `AunRoundTrip` prove what
  holds over all runs. `AunTables`,
  `AunBlock` and `AunEngine` are the engine as it is stored: a circular queue, slot tables searched and replaced in place, fields
  updated call by call, each method proved equal to its value-level function.
- **TELNET filter** (`src/net_telnet.c`): `TelnetSpec` (the stream, no buffers), `TelnetFilter` (context, bitmap,
  buffers that fill).
- **Network service** (`src/net_service.c`, `src/net_tnfs.c`): `NetRing`, `NetHandle` (byte stream, TELNET and
  datagram records over one ring), `Tnfs` (request/reply engine), `Mailbox` (FIQ latch against main-loop poll).
- **LUN sector buffer** (`src/BeebSCSI/filesystem.c`): `LunBuffer`.
- **DFS image builder** (`beeb/net/mkssd.py`): `DfsImage`.

`Bytes` and `Circular` hold what these share. `dafny verify dfyconfig.toml` checks the project.

## Assumptions

- The AUN clock is an unbounded count of milliseconds that only moves between calls; one call sees one reading.
  The engine's signed 32-bit comparisons agree with this while ages stay below 2^31 ms.
- Whether a transport send succeeds is an argument of the call that sends.
- Source address 0 marks broadcast and local frames, as in the engine; the end-to-end results are about peers with
  a non-zero address.
- The log of sent datagrams, accepted frames and so on is a history variable: no operation reads it.
- A FatFs file is a byte sequence with a position, an end of the mapped cluster chain in fast-seek mode, and a limit
  set by the free space on the card. Bytes in a gap made by seeking past the end are arbitrary.
- The mailbox results assume that no dispatched command returns a result with bit 7 set (every `NET_*` code but
  `NET_BUSY` is below 0x80) and, for BUSY, that all commands come through the one services port.
- Bit fields that do not overlap are packed with sums where the sources use shifts and ors.

## Findings

- The engine remembers one sequence number per station, so a message that was released gets past the duplicate filter
  again exactly when the peer's frame released last is another one (`AunRepeats.QueuedExactlyWhen`). A sender that gives up on a message
  and goes on to the next can bring this about: the first is deferred, the second accepted before it, and a repeat of
  the second then looks new (`AunRepeats.GivingUpRepeats`). A sender that repeats a message until it is acknowledged
  cannot (`AunEndToEnd.AtMostOnceInOrder`).
- The comment at `src/net_service.c:323` says a 256-byte chunk gives at most about 255 reply bytes. The bound is
  258, and it is reached (`TelnetSpec.ChunkBoundIsTight`); the 300 bytes provided are enough.
- A busy TNFS server may ask for a shorter wait than the request's own, and the request is then repeated sooner
  (`Tnfs.BusyMayHasten`, exactly when: `Tnfs.HastenedExactly`).
- `parse` strips all white space from the end of a name, not only the padding, so a name that ends in a tab, a
  no-break space or the like does not come back (`DfsImage.TrailingTabLost`); the exact condition is
  `DfsImage.RoundTripExact`.
- Write protection is tested sector by sector: opening a LUN for a write past the end of its image extends the image,
  if the card has room, even when every sector is then swallowed (the protected clause of
  `LunBuffer.Lun.WriteSectors`).
- The mailbox reads its slot field by field. A host that issues a command between two of the reads makes the poll
  dispatch a mixture of commands (`Mailbox.TornWithoutWaiting`, exactly which: `Mailbox.WhatIsRead`); without such a
  latch it dispatches only what was issued (`Mailbox.WholeUnlessMidway`), and a host that waits for bit 7 never makes
  one (`Mailbox.EachCommandOnce`).
- A byte-stream read of a datagram handle is not refused. It leaves whole records exactly when it ends on a record
  boundary (`NetHandle.CutOnBoundary`, `NetHandle.Handle.Recv`); after one that does not, a datagram read would take
  payload for a header.
- An empty UDP datagram reads as length 0, as does an empty queue (`NetHandle.Handle.UdpRecvFrom`).

## Model

| member | source | states |
|---|---|---|
| `AunEndToEnd.AtMostOnceInOrder` | src/AUN/aun.c:1107-1171 | for a stop-and-wait sender over a FIFO network that loses and duplicates, with any other calls interleaved that keep the block open and the map entry, the peer's own ACKs, NAKs, replies, broadcasts and type-5 immediates among them: the frames of that sender that leave the queue are message 0, 1, 2, … each once, and never more than one ahead of what the sender knows to be acknowledged |
| `AunEndToEnd.AcceptedInOrder` | src/AUN/aun.c:509-595 | in every such run two frames the host accepts from the sender are different messages, in the order sent |
| `AunRepeats.QueuedExactlyWhen` | src/AUN/aun.c:1121-1160 | whatever the peer sends, over every run that keeps its map entry: once a frame of it was released, a DATA copy is queued if and only if it is not queued now, the frame released last has another sequence number, and a block takes it |
| `AunRepeats.NeverTwiceRunning` | src/AUN/aun.c:1129-1141 | over every such run two frames of the peer released one right after the other carry different sequence numbers |
| `AunRepeats.GivingUpRepeats` | src/AUN/aun.c:1129-1141 | a run from power-up in which a sender that gives up has one message accepted twice |
| `AunAck.AckSafety` | src/AUN/aun.c:533-595 | over every run, whatever the senders do, each ACK for an ordinary DATA source and sequence number, re-ACKs included, comes after a frame with that source and number was accepted, or was shed after at least the 12 rejections of the smaller budget |
| `AunAck.NeverAckedWhileQueued` | src/AUN/aun.c:612-628 | in no run does a call ACK a frame that it leaves queued |
| `AunAck.AckInvHolds` | src/AUN/aun.c:1121-1141 | what the duplicate filter remembers of a station was released earlier in the run |
| `AunDelivery.PollPresentsOldest` | src/AUN/aun.c:465-495 | in every reachable state a poll presents the oldest queued frame of its stream, with the buffer holding its bytes, and answers PENDING exactly when every queued frame's stream is deferred |
| `AunDelivery.OnlyOldestReleased` | src/AUN/aun.c:529-592 | over every run a frame is accepted only by an accepting collect and shed only by a rejecting one that finds its budget spent; it is then the oldest queued frame of its stream, and leaves the queue with all others in place |
| `AunDelivery.PresentedStays` | src/AUN/aun.c:695-713 | through arrivals, transmits, time and work on other blocks the presented frame and the buffer stay as they are |
| `AunDelivery.SeenIsAcked` | src/AUN/aun.c:533-593 | however much happens between a poll and the collect that follows, the collect acts on exactly the frame the poll showed: accepts, ACKs and removes it; or, turning it down, drops a local one; sheds and ACKs one turned down 250 times (12 if its stream is condemned), condemning the stream for 10 s; and leaves any other in place with one more rejection and its stream deferred for 8 ms |
| `AunDelivery.CollectDrains` | src/AUN/aun.c:551-590 | the sum of 251 minus the rejections over a queue falls with every collect that acts on a frame, and is at most 8 times 251 |
| `AunDelivery.AcceptLifts` | src/AUN/aun.c:389-424 | in every reachable state one accept leaves no condemnation of the frame's stream |
| `AunQueue.TargetIsOldest` | src/AUN/aun.c:428-448 | what a poll or collect picks is the oldest frame of a stream that is not deferred, and it picks none only if all are deferred |
| `AunQueue.AppendKeeps` | src/AUN/aun.c:695-713 | arrivals keep the block invariant and do not change which frame a collect acts on |
| `AunQueue.RemoveKeeps` | src/AUN/aun.c:453-463 | removing a frame of a stream that is not deferred leaves every deferral with a frame behind it |
| `AunQueue.DeferKeeps` | src/AUN/aun.c:587-590 | deferring in place keeps the block invariant |
| `AunQueue.PatienceBounds` | src/AUN/aun.h:206-221 | a queue can absorb between 1 and 251 rejections for each frame |
| `AunRxInv.RxInvHolds` | src/AUN/aun.h:186-221 | in every reachable state queues are bounded, no source and sequence number is queued twice in any block, deferrals are backed by frames, a stream has at most one condemn entry, and the presented frame is the one in the buffer |
| `AunRxInv.SlotTablesKeep` | src/AUN/aun.c:369-424 | storing replaces a stream's own slot, so there is never a second, and lifting clears it |
| `AunTables.NeverSteals` | src/AUN/aun.c:336-365 | with a frame queued for the stream, the defer table always has its own, a free or an expired slot for it |
| `AunTables.SetSlotUpdates` | src/AUN/aun.c:336-365 | storing a deferral changes the table, seen as a map of running deferrals, at that stream only |
| `AunTables.ExpireInvisible` | src/AUN/aun.c:313-329 | freeing an expired slot on lookup does not change the map of running deferrals |
| `AunTables.Lookup` | src/AUN/aun.c:313-329 | the in-place search finds the running slot of a stream or frees its expired one |
| `AunTables.Store` | src/AUN/aun.c:336-365 | the in-place store takes the stream's own slot, else the first free or expired one, else the one closest to expiry |
| `AunImmInv.OneOutcomeEach` | src/AUN/aun.c:246-284 | over every run a held immediate is resolved at most once, after it was held, and the outcome is sent to its own originator |
| `AunImmInv.ResolvedByDeadline` | src/AUN/aun.c:1280-1289 | once a poll runs at or after its deadline every held immediate has been resolved or dropped by a reconfiguration |
| `AunImmInv.ReplyReachesPolled` | src/AUN/aun_emulator.c:581-612 | the host's reply command has an effect only on the immediate it last polled |
| `AunImmInv.HeldAgainOnlyWhenFreed` | src/AUN/aun.c:963-1006 | one endpoint, sequence number and encoding is held again only if in between its cache window lapsed, another immediate was resolved, or the engine was reset or reconfigured |
| `AunReplay.OutcomeExactly` | src/AUN/aun.c:264-284 | over every run a held immediate is resolved only by the host's reply command, which sends its originator exactly the host's bytes (or the ACK of one carried as DATA), or by a poll 1000 ms or more after it was held, which alone sends a NAK |
| `AunReplay.ReplayedExactly` | src/AUN/aun.c:970-987 | over every run a repeat of a resolved request within 6 s, with nothing resolved or reset in between, is answered with the datagram that was its outcome and changes nothing else |
| `AunReplay.Type5Fate` | src/AUN/aun.c:1207-1256 | what a type-5 immediate meets in any state: the machine id, a NAK, silence, its remembered outcome, or the slot, which then holds its bytes |
| `AunReplay.Imm4Fate` | src/AUN/aun.c:942-1007 | the same for one carried as DATA, where a Poke is held without its byte count |
| `AunImmInv.ImmInvHolds` | src/AUN/aun.c:1207-1256 | the invariant behind the immediate results holds in every reachable state |
| `AunTxInv.TransmitsConserved` | src/AUN/aun.c:718-802 | after every run the transmits answered AUN_OK since the last initialisation equal tx_ok + tx_fail + 1 if one is pending (as 32-bit counters) |
| `AunTxInv.TransmitBounds` | src/AUN/aun.c:1291-1327 | over every run a DATA transmit puts 1 to 11 datagrams on the wire and an immediate exactly 1, all byte-identical and to one peer |
| `AunTxInv.EarlierRepliesIgnored` | src/AUN/aun.c:1032-1071 | a reply with the sequence number of an earlier transaction never changes the current one, within 2^30 sequence numbers of one initialisation |
| `AunOutcome.TransmitOutcome` | src/AUN/aun.c:1032-1071 | over every run and for every call: a pending transmit becomes AUN_OK exactly when the peer it went to sends, under its number, the ACK of a DATA or the reply to an immediate (or the engine is initialised again); NOT_LISTENING exactly when that peer's NAK comes with all retries used or nothing came for 1000 ms after the last send; NET_ERROR exactly when a repeat due 10 ms after a NAK cannot be sent; and otherwise stays pending |
| `AunOutcome.ReplyReadBack` | src/AUN/aun.c:1060-1071 | the reply to an immediate is handed over byte for byte, cut to the room there is |
| `AunOutcome.PendingKeepsRequest` | src/AUN/aun.c:773-801 | while a transmit is pending its peer, datagram and reply buffer stay as they were |
| `AunOutcome.TransmitBegins` | src/AUN/aun.c:718-802 | a DATA transmit is refused with the right code or goes out as asked, to the endpoint the station it names is mapped to or has in the learned subnet |
| `AunOutcome.ImmediateBegins` | src/AUN/aun.c:812-843 | the same for immediates: a Poke with its byte count spliced in, the other 4-way ones as DATA to port 0, all others as type 5 |
| `AunFate.DataFate` | src/AUN/aun.c:1107-1171 | in every state a DATA datagram of a source that cannot be attributed is ignored, a waiting one dropped silently, the last one released ACKed again; any other is NAKed if and only if no open block has its port, station and net or the first with room has too small a buffer, met with silence if all such blocks hold 8 frames, and else queued there; nothing else changes |
| `AunFate.DeliveryByFields` | src/AUN/aun.c:635-714 | the three ways a delivery can go, told in the fields of the blocks, are exhaustive |
| `AunFate.LearnByFields` | src/AUN/aun.c:95-105 | a source is attributed if and only if it is mapped, or is in the learned subnet and the map has its station or room |
| `AunFate.MapAddByFields` | src/AUN/aun.c:169-187 | mapping a station redirects its entry and drops its record, or appends one while there is room |
| `AunFate.BroadcastFate` | src/AUN/aun.c:1195-1205 | a broadcast is offered as from its station or 0.0 and never answered |
| `AunFate.BroadcastSends` | src/AUN/aun.c:845-874 | the same datagram once to each mapped station in order, then to the subnet if it has a broadcast address |
| `AunFate.LoopbackFate` | src/AUN/aun.c:731-761 | a transmit to the test responder is over at once, AUN_OK exactly when the host's blocks take it |
| `AunFate.LoopbackPeek` | src/AUN/aun.c:735-741 | an immediate to the test responder reads back the machine id, cut to the room there is |
| `AunFate.OpenFate` | src/AUN/aun.c:288-308 | an opened block listens as asked, empty; the other is untouched |
| `AunFate.CloseFate` | src/AUN/aun.c:597-603 | a closed block is empty and the other untouched; close, poll and collect say so of a block that is not open, and change nothing |
| `AunFate.ReadyCounts` | src/AUN/aun.c:497-507 | the ready count is the number of queued frames whose stream is not deferred |
| `AunFate.InitFate` | src/AUN/aun.c:149-167 | initialising leaves no station, route, open block, transmit or immediate, and starts the sequence at 4 |
| `AunFate.SettingsFate` | src/AUN/aun.c:189-223 | each setting changes what it names and nothing else; host immediates on or off drop what is held and remembered |
| `AunFate.TickFate` | src/AUN/aun.c:313-329 | as time passes exactly the deferrals still ahead remain |
| `AunRoundTrip.ImmediateRoundTrip` | src/AUN/aun.c:812-843 | a Poke of 4 to 2048 bytes, or a JSR, UserProc or OSProc of 2 to 390, sent by one engine is held by another as exactly the original bytes, and its host's reply completes the sender's transmit with AUN_OK |
| `AunRoundTrip.PeekRoundTrip` | src/AUN/aun.c:1060-1071 | a Peek, or any other type-5 request, between two engines: the far host is handed the caller's bytes, and the caller reads back the far host's, cut to its room |
| `AunRoundTrip.PayloadRoundTrip` | src/AUN/aun.c:942-1007 | removing the byte count an inbound Poke carries undoes what the sender spliced in |
| `AunTypes.DecodeEncode` | src/AUN/aun.c:116-124 | a datagram survives its wire form, but for bit 7 of the control byte |
| `AunBlock.RxBlock.RemoveAt` | src/AUN/aun.c:453-463 | removing any frame of the circular queue removes that element of the sequence it holds |
| `AunBlock.RxBlock.FindEligible` | src/AUN/aun.c:440-448 | the scan finds the oldest frame whose stream is not deferred |
| `AunBlock.RxBlock.CountReady` | src/AUN/aun.c:497-507 | the count is of the frames a poll could present |
| `AunBlock.RxBlock.PresentFrame` | src/AUN/aun.c:465-495 | presenting copies the frame into the host's buffer once and leaves the rest of the buffer alone |
| `AunBlock.RxBlock.Defer` | src/AUN/aun.c:587-590 | deferring counts a rejection and updates the map of running deferrals at one stream, stealing none |
| `AunBlock.RxBlock.Enqueue` | src/AUN/aun.c:695-713 | an arrival joins the sequence at its end and keeps the block invariant |
| `AunEngine.AunEngine.Init` | src/AUN/aun.c:149-167 | initialisation starts everything over but the clock and the history |
| `AunEngine.AunEngine.AddStation` | src/AUN/aun.c:169-187 | an address already mapped is redirected and its duplicate record dropped, a new one appended while there is room |
| `AunEngine.AunEngine.RxOpen` | src/AUN/aun.c:288-308 | opening checks and wipes as the specification does, and keeps the invariant |
| `AunEngine.AunEngine.RxClose` | src/AUN/aun.c:597-603 | closing leaves the block empty and changes nothing else |
| `AunEngine.AunEngine.RxPoll` | src/AUN/aun.c:465-495 | the stored engine's poll is the specification's |
| `AunEngine.AunEngine.RxReady` | src/AUN/aun.c:497-507 | asking how much is ready does not change the engine |
| `AunEngine.AunEngine.RxCollect` | src/AUN/aun.c:509-595 | the stored engine's collect (accept, local drop, defer, condemn and shed) is the specification's |
| `AunEngine.AunEngine.SeqPending` | src/AUN/aun.c:612-628 | the scan over both queues answers whether a source and sequence number await collect |
| `AunEngine.AunEngine.MatchBlock` | src/AUN/aun.c:635-657 | the first listening block with room is found, and whether a full one listens |
| `AunEngine.AunEngine.DeliverFrame` | src/AUN/aun.c:666-714 | a payload is queued, met by a full queue or refused as specified, keeping the invariant |
| `AunEngine.AunEngine.InputData` | src/AUN/aun.c:1107-1171 | an ordinary DATA datagram is queued, dropped, re-ACKed or refused as specified |
| `AunEngine.AunEngine.InputReply` | src/AUN/aun.c:1032-1071 | an ACK, NAK or immediate reply changes the pending transmit as specified |
| `AunEngine.AunEngine.InputImm4` | src/AUN/aun.c:942-1007 | a 4-way immediate is refused, replayed, absorbed or held as specified |
| `AunEngine.AunEngine.InputImmediate` | src/AUN/aun.c:1207-1256 | a type-5 immediate is refused, absorbed, replayed or held as specified |
| `AunEngine.AunEngine.UdpInput` | src/AUN/aun.c:1009-1262 | the stored engine's reaction to any datagram is the specification's |
| `AunEngine.AunEngine.TxBegin` | src/AUN/aun.c:718-802 | starting a transmit, loopback responder included, is the specification's |
| `AunEngine.AunEngine.Immediate` | src/AUN/aun.c:812-843 | an immediate takes the wire form the specification gives it |
| `AunEngine.AunEngine.Broadcast` | src/AUN/aun.c:845-874 | one copy to every mapped peer in table order, then one to the subnet |
| `AunEngine.AunEngine.ImmPoll` | src/AUN/aun_emulator.c:581-596 | polling hands over the held bytes and records their generation |
| `AunEngine.AunEngine.ImmReplyCommand` | src/AUN/aun_emulator.c:598-612 | the reply command settles the polled immediate, or nothing |
| `AunEngine.AunEngine.Poll` | src/AUN/aun.c:1270-1327 | the reaper and the transmit timer together are the specification's |
| `TelnetSpec.CuttingIsInvisible` | src/net_telnet.c:33-89 | for every cutting of a stream into pieces, clean text, replies and final context are those of one run over the whole |
| `TelnetSpec.OutputBounds` | src/net_telnet.c:33-89 | filtering never lengthens, and every reply is paid for by three bytes of input, of which at most two came earlier |
| `TelnetSpec.EnoughRoom` | src/net_telnet.c:21-31 | with two bytes more of reply room than input no reply is held back |
| `TelnetSpec.ChunkBoundIsTight` | src/net_service.c:320-327 | no 256-byte chunk gives more than 258 reply bytes, and one gives 258 |
| `TelnetSpec.OneReplyPerOption` | src/net_telnet.c:21-31 | over a whole run no option is answered twice, and the remembered options are exactly those answered |
| `TelnetSpec.FilterMeaning` | src/net_telnet.h:10-19 | for every sequence of text, escaped 255s, commands, negotiations and subnegotiations the filter yields exactly its text, less a NUL after a CR, and exactly one reply to the first offer or request of each option |
| `TelnetSpec.EveryStreamLexes` | src/net_telnet.c:41-88 | every byte string is the spelling of well-formed tokens followed by one begun and not finished |
| `TelnetSpec.TotalMeaning` | src/net_telnet.c:33-89 | so for every byte string the filter yields exactly the text of its whole tokens and the replies they call for, and stands in the token begun |
| `TelnetSpec.RepliesExactly` | src/net_telnet.c:65-73 | for every byte string and option o: the reply (253, o) or (254, o) is given if and only if the first WILL o or DO o is a WILL, 253 for options 1 and 3 alone; (252, o) if and only if it is a DO; an option that only WONT or DONT mention gets none |
| `TelnetSpec.EscapeRoundTrip` | src/net_telnet.c:91-108 | filtering an escaped string gives it back less each NUL directly after a CR, with no reply |
| `TelnetSpec.RoundTripExact` | src/net_telnet.c:44-63 | it comes back unchanged if and only if no NUL directly follows a CR |
| `TelnetSpec.PartialCallsConcatenate` | src/net_telnet.c:91-108 | repeated partial escape calls with any room put exactly the escape of what they consumed on the wire |
| `TelnetSpec.PartialCallsFinish` | src/net_telnet.c:91-108 | with two bytes of room each, as many calls as bytes consume everything |
| `TelnetFilter.Telnet.Answer` | src/net_telnet.c:21-31 | the bitmap behaves as a set; an option with no room for its reply stays unanswered |
| `TelnetFilter.Telnet.Filter` | src/net_telnet.c:33-89 | the buffered filter yields the specified text, cut to the buffer, and the specified replies |
| `TelnetFilter.Telnet.FilterSegment` | src/net_service.c:315-341 | a segment filtered in 256-byte chunks loses nothing and holds no reply back |
| `TelnetFilter.Escape` | src/net_telnet.c:91-108 | as much of the input as fits is escaped, and no less |
| `NetRing.ByteRing.Put` | src/net_service.c:201-209 | bytes join the queue in order, across the wrap |
| `NetRing.ByteRing.Get` | src/net_service.c:189-199 | the oldest bytes, and no others, move to the destination, which is otherwise untouched |
| `NetRing.ByteRing.Skip` | src/net_service.c:677-686 | discarding in 64-byte lots drops exactly the bytes asked for |
| `NetHandle.RecordsAppend` | src/net_service.c:268-288 | adding a record to whole records gives whole records |
| `NetHandle.HeaderReads` | src/net_service.c:654-690 | the oldest record's header gives its address, port and length, and the rest is the remaining records |
| `NetHandle.RecordsUnique` | src/net_service.c:70-73 | a ring of whole records determines the datagrams in it |
| `NetHandle.CutOnBoundary` | src/net_service.c:189-199 | for all datagrams and every number of bytes read, what is left is whole records if and only if the read ended on a record boundary |
| `NetHandle.StreamReadBreaksRecords` | src/net_service.c:799-820 | a byte-stream read that ends inside the oldest record never leaves whole records |
| `NetHandle.Handle.TcpRecv` | src/net_service.c:290-347 | a segment is taken whole or refused with no byte changed; with what the host has read, the ring always holds the clean text of all accepted segments |
| `NetHandle.Handle.Recv` | src/net_service.c:799-820 | the host reads the next bytes of the ring, of either type of handle, and sees the end or an error only once it is empty; a datagram handle keeps whole records if and only if all it has read ends on a record boundary |
| `NetHandle.Handle.UdpRecv` | src/net_service.c:268-288 | a datagram is queued whole or dropped whole |
| `NetHandle.Handle.Pop` | src/net_service.c:994-1013 | the payload read is a prefix of the oldest accepted datagram not yet read, and the ring ends on the next record |
| `NetHandle.Handle.UdpRecvFrom` | src/net_service.c:654-690 | the same with the sender's address; bad parameters and other handle types change nothing; length 0 is answered exactly when nothing waits, the datagram is empty or no room was given |
| `Tnfs.ParseTakesReplies` | src/net_tnfs.c:151-167 | exactly the packets of a reply to this sequence number and command are taken, with the fields the server gave |
| `Tnfs.EveryActionFalls` | src/net_service.c:1054-1084 | every poll that acts lowers the pair (EAGAIN budget, retries) lexicographically or ends the transaction; every other poll changes nothing |
| `Tnfs.AtMost37` | src/net_service.c:1029-1084 | whatever arrives and whenever it is polled, a transaction sends 1 to 37 datagrams, all the request |
| `Tnfs.ThirtySevenReached` | src/net_service.c:1029-1084 | some sequence of polls sends 37 |
| `Tnfs.EndsRightly` | src/net_service.c:1054-1084 | it ends on a polled reply with its sequence number, command and, once assigned, session, or gives up with a budget spent |
| `Tnfs.Terminates` | src/net_service.c:1054-1084 | acting polls are bounded by the budgets, and reaching the bound ends the transaction |
| `Tnfs.PolledExactly` | src/net_service.c:1054-1084 | whatever came before, a poll with a reply ends the transaction or puts it off; with none nothing happens until the request is due, and then it is repeated or, with no retries left, given up; due is the wait after the last send, or what the last busy reply since then asked for |
| `Tnfs.SendsSpaced` | src/net_service.c:1029-1034 | two sends with no busy reply between them are at least retryMs (800 when 0) apart |
| `Tnfs.HastenedExactly` | src/net_service.c:1066-1073 | a send can come sooner than that exactly when retries are left and a busy reply since the last send asks for an earlier time |
| `Tnfs.BusyMayHasten` | src/net_service.c:1066-1073 | two sends 15 ms apart at a wait of 800 ms, shown by a run |
| `Tnfs.BusyIsHeeded` | src/net_service.c:1066-1073 | after a busy reply nothing is sent and nothing given up, in silence, for as long as it asks |
| `Tnfs.ReplyInTime` | src/net_service.c:1054-1084 | a reply waiting at a poll before the request is due again always ends the transaction as done |
| `Tnfs.Client.StartRequest` | src/net_service.c:1038-1047 | a request that fits is sent with fresh budgets, any other refused |
| `Tnfs.Client.PollReply` | src/net_service.c:1054-1084 | one poll takes at most one datagram off the ring and moves the transaction as specified |
| `Mailbox.BusyNeverStranded` | src/net_service.c:1549-1592 | in every interleaving of latches, poll steps and resets, BUSY in the result register means a command is pending or a poll is about to write a result with bit 7 clear |
| `Mailbox.BusyClears` | src/net_service.c:1562-1592 | from every reachable state the rest of the poll under way and one more poll clear BUSY, if nothing else is latched |
| `Mailbox.EachCommandOnce` | src/net_service.c:1549-1592 | with a host that waits for bit 7 every command is dispatched exactly once, whole and in order, resets or not, and a clear register holds the result of the host's last command |
| `Mailbox.TornWithoutWaiting` | src/net_service.c:1583-1589 | a host that does not wait can make the poll dispatch a command nobody issued, shown by a run |
| `Mailbox.WholeUnlessMidway` | src/net_service.c:1583-1589 | however the host behaves, if no latch falls while the slot is half read, every command dispatched is one that was latched |
| `Mailbox.WhatIsRead` | src/net_service.c:1584-1586 | exactly what is read when latches do fall there: the first command's pointer, the second's address, the third's data; it is the first command if and only if address and data are its own |
| `LunBuffer.Lun.ReadNext` | src/BeebSCSI/filesystem.c:1352-1389 | each read gives the image's next sector, zeros past its end, however the 64-sector buffer falls |
| `LunBuffer.Lun.ReadSectors` | src/BeebSCSI/filesystem.c:1325-1389 | n reads from any start give exactly those sectors and leave the image as it was |
| `LunBuffer.Lun.OpenForWrite` | src/BeebSCSI/filesystem.c:1399-1453 | opening keeps the image as a prefix, extends it only when it ends before the first sector, and refuses LUNs above 7 |
| `LunBuffer.Lun.WriteOut` | src/BeebSCSI/filesystem.c:1477-1501 | a write that fast-seek mode cuts short is completed with the map off: the file is patched as by one write |
| `LunBuffer.Lun.WriteNext` | src/BeebSCSI/filesystem.c:1457-1519 | each sector reaches the file or the buffer, under write protection neither |
| `LunBuffer.Lun.WriteSectors` | src/BeebSCSI/filesystem.c:1399-1519 | n writes to a writable, unprotected LUN succeed exactly when the card has room, and leave the image patched with exactly those sectors; a failed write leaves a first part of them; a protected one leaves the image as it was if and only if the LUN is read-only, the image reaches the first sector or the card is full |
| `LunBuffer.ReadBack` | src/BeebSCSI/filesystem.c:1325-1519 | sectors written read back as written, all others as before |
| `LunBuffer.SectorBegins` | src/BeebSCSI/filesystem.c:1333-1335 | sector n begins at byte 256 n if and only if n is below 2^24 |
| `DfsImage.Build` | beeb/net/mkssd.py:43-93 | building fails exactly on more than 31 files or a full disc, and otherwise lays out title, catalogue and every file's bytes |
| `DfsImage.PlaceFiles` | beeb/net/mkssd.py:52-62 | files stand at consecutive sector-aligned starts, each intact, or the disc is too small |
| `DfsImage.SectorsTight` | beeb/net/mkssd.py:56-56 | a file takes as many sectors as it needs and no more |
| `DfsImage.SortDescending` | beeb/net/mkssd.py:64-65 | a permutation in descending start order, ties in the order given |
| `DfsImage.RegionsDisjoint` | beeb/net/mkssd.py:52-62 | file regions lie past the catalogue, inside the disc and apart from one another |
| `DfsImage.ParseBuilt` | beeb/net/mkssd.py:96-110 | parsing a built image lists every file with its start and length, at which its bytes stand, and gives the boot option |
| `DfsImage.ListedDescending` | beeb/net/mkssd.py:64-65 | the listing runs from the latest start to the earliest |
| `DfsImage.RoundTripExact` | beeb/net/mkssd.py:96-110 | every name, directory, start and length comes back if and only if each name has at most 7 characters and no trailing white space and each directory letter has 7 bits |
| `DfsImage.TitleExact` | beeb/net/mkssd.py:48-50 | the title comes back if and only if it has at most 12 characters and does not end in a NUL or a space |
| `DfsImage.InfoRoundTrip` | beeb/net/mkssd.py:80-91 | length and start survive the packing of their top bits |
| `DfsImage.AddressesKept` | beeb/net/mkssd.py:71-91 | the low 18 bits of load and execution address, the lock bit and the padded name can be read back from an entry |
| `DfsImage.TrailingTabLost` | beeb/net/mkssd.py:104-104 | a name that ends in a tab comes back without it |

## Left out

- 32-bit wrap of the AUN clock: see Assumptions; deadlines are compared as unbounded numbers.
- AUN counters other than tx_ok and tx_fail, the trace hook and its hashes: diagnostics that no verdict depends on.
- The AUN emulator's own mailbox, interrupt line and command decoding: `Mailbox` models the network service's, whose steps differ.
- AunEngine.AunEngine.RxOpen: does not model two receive blocks opened on one host buffer; it requires the buffers to be distinct.
- AunEndToEnd.AtMostOnceInOrder: the sender's messages are ordinary DATA; the 4-way immediates a peer may send as DATA to port 0 are not mixed in, since its host answers them with the same kind of ACK.
- NetHandle.Handle.UdpRecvFrom: is stated for a handle whose ring is whole records; on one that a byte-stream read has broken, the service takes arbitrary bytes for a header and its byte count can wrap.
- AunImmInv.ReplyReachesPolled: assumes fewer than 2^32 immediates held since the last poll, after which the 32-bit generation repeats.
- Tnfs.Client.StartRequest: takes the request as the bytes a builder made, which are none or at least a header.
- lwIP, sockets, DNS, TLS and HTTP header parsing: foreign code or easy members; a send is an outcome, an arrival an event.
- TNFS request builders and typed reply extractors: they would only add easy members; a request is the bytes it was built to.
- Card I/O errors during writes: a write fails only for want of room; reads take the outcome as an argument.
- FatFs itself, the mode-page and configuration parsers, and SCSI command handling around the sector calls.
- The effect of a name's upper-casing on its length in the DFS builder: names are taken as upper-cased already, of any length.
- Load and execution addresses on parsing: the parser does not return them.
- Screen, USB, audio, video player, compressor, boot and watchdog code: hardware, or nothing with a run-level property.
