# Verification model of tbquic

tbquic is a C implementation of QUIC version 1 (RFC 9000, RFC 9001) with its own TLS 1.3 handshake
engine (RFC 8446). This project models its transport data path and proves properties of it. Where a
part of the code changes objects in place, there is a class or a method with loops that is proved equal
to a function of the old state; the theorems are about those functions. Nothing was executed.

| file | part of tbquic |
|---|---|
| Common.dfy | the comparison macros, which compare a difference cast to 32 bits |
| Bytes.dfy, Varint.dfy, Packet.dfy | big-endian numbers, varints, the read cursor and the nested writer |
| PacketNumber.dfy, Protection.dfy | packet-number truncation and recovery, header protection |
| Datagram.dfy | long and short packets, sealing with an abstract AEAD, and the receive loop |
| CryptoFrames.dfy | splitting the TLS stream into CRYPTO frames and putting it together again |
| SendQueue.dfy | length precomputation, coalescing, padding, the move to the sent queues, the drain loop |
| Ack.dfy | the ACK parser and builder and the pruning of the sent queue |
| SentRuns.dfy | whole runs of queueing, writing, failing calls and acknowledgements |
| StreamDelivery.dfy | the receiving half of a stream, and the shared datagram buffers |
| Streams.dfy | stream identifiers, the two state machines, flow control |
| Handshake.dfy | the table-driven TLS engine of both sides |
| CidPool.dfy, TransportParams.dfy, Hkdf.dfy | connection-ID pools, transport parameters, HKDF-Expand |

The main results:

- `SendQueue.DrainedIsReceived`: over a whole run of the drain loop every datagram fits the segment
  size, and what the peer's receive loop opens is exactly the buffers that left the transmit queue, in
  order, each in its space and followed by padding at most. It rests on `Datagram.CoalescedRoundTrip`,
  `Protection.ProtectInvertible`, `SendQueue.DatagramFits` and `Coalescing.StampAllConserves`.
- `CryptoFrames.SplitThenReassemble`: splitting inverts under reassembly, in any order, with duplicates.
- `Delivery.Safety`: whatever arrives and however it is read, the bytes handed out are the stream's prefix.
- `SentRuns.RunSafe`: over every run of queueing, writing and acknowledgements, with calls that fail at any
  point, no buffer is lost or doubled; `SentRuns.WiredIsReceived`: the peer opens exactly what got to the wire.
- `SharedBuffers.RunKeeps`, `Streams.RunKeeps`, `Streams.IdsDistinct`, `Handshake.ClientOrder`,
  `Handshake.ServerOrder`, `CidPool.RunRefines`, `TransportParams.RoundTrip`: invariants over every run.
- `Streams.StreamRuns`: each stream of a connection runs as a stream by itself does, so all theorems about one
  stream hold of each; `Handshake.CallsRecord`: exactly the messages whose handlers succeed count as handled.

## Where the code does less than it promises

In each case the code is modelled as it is, and the exact condition is proved.

- The macros of quic/common.h agree with the integer order only up to a difference of 2^31
  (`Common.MacroAgreesIff`).
- `QuicPktNumberDecode` guards its two corrections with macros on values about 2^62 apart, so when a
  packet number enters the next or the previous block it is recovered only if bit 31 happens to agree
  (`PacketNumber.RecoveryMacro`); with integer comparisons it always is (`PacketNumber.RecoveryInt`).
- With a segment size of 1200 bytes or less a short Handshake packet cannot be padded
  (`PacketLength.PaddingFitsIff`).
- `QBufAckSentPkt` sets its cursor only for a NULL start, so an ACK frame with more than one range
  dereferences NULL exactly when a packet below its first range is in flight (`AckRanges.CallsExact`).
- The ACK parser's test for a range below zero looks at bit 31 of the difference (`Ack.SignTestIff`).
- A receive queue is never sorted and a partial read does not move the segment's offset. Once the head of
  the queue does not continue the stream, the stream is stuck for good (`Delivery.StuckForever`); which
  arrivals and reads do that is exact (`Delivery.ArrivalFlowsIff`, `Delivery.ReadFlowsIff`).
- An overlap is cut off only at the read offset. A segment that overlaps bytes which wait to be read stops the
  stream behind those, though all bytes have arrived (`Delivery.OverlapIff`, `Delivery.OverlapCounterexample`).
- The end of a stream is recognised only when the FIN segment finds everything before it already read
  (`Delivery.EndRecognisedIff`); otherwise it is never reported (`Delivery.MissedForever`).
- A reported end may come early, for instance when flow control drops the segment that carries FIN
  (`Delivery.FinCounterexample`). It is complete if and only if the segment that was recognised is the
  last one of the stream (`Delivery.EndCompleteIff`).
- A Length of a long packet that is 2^31 or more ahead of what is left can pass its guard; the cursor then
  leaves the packet (`Datagram.WildLengthIff`, `Datagram.WildCounterexample`).
- A packet that cannot be built leaves its padding in the buffer that waits and, unless the keys were missing,
  has used up a packet number (`SendQueue.Endpoint.BuildPkt`).
- Payload and packet number need four bytes together for the header protection sample, and nothing pads a short
  packet. The DATA_BLOCKED frame that a refusal by the connection's limit queues has two bytes while fewer than
  64 bytes were sent, so with packet numbers of one byte it cannot be built (`SendQueue.NoticeJamsIff`). Once it
  is first in the queue every later call fails and the connection never sends again
  (`SendQueue.JammedIff`, `SentRuns.JammedForever`, `SendQueue.JamCounterexample`).
- A call that fails half-way leaves the buffers it had moved in the sent queues, though no datagram carries them.
  What was moved is what got to the wire exactly if every failing call had moved nothing
  (`SentRuns.WiredIff`, `SentRuns.StrandedCounterexample`).
- An ACK frame may name a number that was never sent; the next build in that space then fails an assertion,
  exactly if the number is beyond the next one (`SentRuns.AssertsIff`, `SentRuns.AssertCounterexample`).
- A packet with the last packet number RFC 9000 allows, 2^62 - 1, is refused (`PacketNumber.RefusedIff`).
- A client that knows its peer by an empty connection ID refuses every long header (`Datagram.IdsIff`).
- MAX_DATA and MAX_STREAMS lower a limit that is 2^31 or more above the value they name
  (`Streams.RaisedIff`, `Streams.LoweredCounterexample`).
- Send flow control never exceeds a limit, but refuses permitted bytes while a limit is far ahead of the
  count (`Streams.SendRightIff`, `Streams.RefusedCounterexample`). A bidirectional stream that the peer
  opened has no limit of its own before MAX_STREAM_DATA (`Streams.PeerStreamNeedsGrant`).
- Receive flow control compares with the peer's parameters where it should use its own, so what this endpoint
  advertised is not kept; exactly when it is, is `Streams.StreamAdvertisedIff` and
  `Streams.ConnectionAdvertisedIff` (`Streams.AdvertisedCounterexample`).
- The stream table is sized by a formula that gives places for about half of the streams when both sides grant
  the same number of both kinds, and for none of a kind in small cases; `Streams.AllOpenIff` says for any
  grants below 2^29 when all of them can be opened (`Streams.RoomCounterexample`).
- FIN on the first frame of stream 0 is lost (`Streams.FirstFinIff`); a stream may be opened that the lookup
  then refuses (`Streams.OpenedUsableIff`); MAX_STREAM_DATA never raises the limit of a unidirectional
  stream of one's own (`Streams.SendOnlyLimitStays`).
- A retransmitted handshake message that arrives while the client waits for a certificate request moves
  the engine past that state, and the request itself is then dropped (`Handshake.DropKeepsStateIff`,
  `Handshake.DroppedRequest`). A client's engine never reaches its final state
  (`Handshake.ClientNeverDone`).
- The pool of the peer's connection IDs never moves `max_seq`, so nothing is ever found or retired in it
  by number (`CidPool.PeerFindsIff`), and Retire Prior To misses identifiers that came out of order
  (`CidPool.PriorLeavesNoneIff`).
- The active connection ID limit is in neither table of transport parameters, so it is never exchanged;
  the stateless reset token has a reader but no field and is skipped (`TransportParams.ClientToServer`,
  `TransportParams.TokenIgnored`).
- The length of an integer transport parameter is not compared with what the value takes
  (`TransportParams.LengthIgnored`).
- HKDF-Expand lets 255 blocks pass its guard and then never ends (`Hkdf.EndsIff`).

## Model

| member | source | states |
|---|---|---|
| Common.MacroAgreesIff | quic/common.h:24-27 | when QUIC_LT and QUIC_GT order two integers rightly, in terms of their difference and its remainder modulo 2^32; the other two are their negations |
| Varint.RoundTrip | quic/format.c:200-268 | decoding an encoded value below 2^62 gives it back with its length, whatever follows |
| Varint.Shortest | quic/format.c:200-268 | no encoding of a value is shorter than the one the encoder writes |
| Varint.LenMonotone | quic/format.c:200-240 | a larger value never has a shorter encoding |
| Varint.FailsIff | quic/format.c:242-268 | decoding fails exactly when the input is shorter than its first byte says |
| Varint.PrefixFree | quic/format.c:200-268 | no encoding starts another one, so a stream of varints splits in one way only |
| Varint.Encode | quic/format.c:200-240 | the in-place encoder writes exactly the encoding, or fails, exactly when the value or the space does not do, and writes nothing |
| Varint.NumbersBack | quic/format.c:200-268 | a run of encoded numbers is read back number by number with what follows left alone |
| VarintReader.Decode | quic/format.c:242-268 | the reading loop over the cursor decodes one varint or uses up a cut-short one |
| PacketReader.RPacket.Forward | quic/packet.c:42-46 | the cursor moves on and the end of the bytes stays |
| PacketReader.RPacket.HeadPush | quic/packet.c:58-62 | the head moves back over what was read |
| PacketReader.RPacket.Update | quic/packet.c:77-80 | the cursor starts over at its position with the rest |
| PacketReader.RPacket.GetData | quic/packet.c:93-119 | the cursor reads a big-endian number and moves behind it, or stays |
| PacketReader.RPacket.GetBytes | quic/packet.c:187-214 | the cursor takes exactly the asked bytes, or stays |
| PacketReader.RPacket.GetLengthPrefixed | quic/packet.c:255-288 | a length-prefixed part is taken out and the rest left |
| PacketWriter.WriterCorrect | quic/packet.c:438-651 | any well-bracketed run of writer operations succeeds exactly when every number, length and the whole fit, and then the buffer holds the nested serialisation with all lengths patched in and nothing else changed |
| PacketWriter.ItemCorrect | quic/packet.c:523-635 | the same for one element: bytes, a number, or a nested part |
| PacketWriter.ReadBack | quic/packet.c:255-288 | the length-prefixed readers recover every part of what the writer wrote |
| PacketWriter.WPacket.PutValue | quic/packet.c:523-537 | the backwards loop stores the big-endian number and fails exactly when it is too wide |
| PacketWriter.WPacket.Copy | quic/packet.c:461-480 | the copy loop is the writer's copy step |
| PacketWriter.WPacket.PutBytes | quic/packet.c:539-548 | writing a number, of which 32 bits are seen, is the writer's number step |
| PacketWriter.WPacket.StartSub | quic/packet.c:570-588 | opening a part reserves its length, or records a broken part |
| PacketWriter.WPacket.CloseSub | quic/packet.c:610-635 | closing patches the length of the innermost part |
| PacketWriter.WPacket.ForceClose | quic/packet.c:637-651 | closes every open part, innermost first |
| PacketNumber.WinIs | quic/format.c:270-288 | the window of a field is two to its width |
| PacketNumber.Encode | quic/format.c:290-329 | the encoder truncates a number below 2^62 and never takes its error return |
| PacketNumber.RecoveryInt | quic/format.c:342-376 | with integer comparisons every number in the window round the expected one is recovered from its truncation |
| PacketNumber.RecoveryMacro | quic/format.c:342-376 | with the macros a number in the window is recovered exactly when it stays in its block or bit 31 agrees with the change of block |
| PacketNumber.MacroCounterexample | quic/format.c:342-376 | packet 0x205 after 0x1EF is taken for 0x105 |
| Protection.ProtectInvertible | quic/format.c:416-477 | removing header protection from a protected packet gives the packet back, and protection touches only the low bits of the first byte and the packet number |
| Bytes.XorBit | quic/format.c:469-474 | exclusive or flips exactly the bits that are set in the other operand |
| Protection.ProtectFlips | quic/format.c:384-477 | protection flips a bit of the first byte exactly if it is one of the four or five protected ones and set in the first mask byte, a bit of the packet number exactly if it is set in the mask byte that follows, and nothing else; the mask comes from the 16 bytes four behind the start of the number |
| Protection.EncryptHeader | quic/format.c:454-477 | the in-place masking equals the protection of the packet and fails exactly when there is no sample |
| Protection.DecryptHeader | quic/format.c:416-452 | the in-place unmasking equals its removal, and the packet number is read with the length the unmasked byte gives |
| Protection.ReadNumber | quic/format.c:436-447 | the number loop gives the big-endian packet number |
| PacketNumber.RefusedIff | quic/format.c:672-676 | of the numbers that are recovered, the receiver refuses exactly 2^62 - 1 |
| Datagram.CodecGood | quic/format.c:416-602 | sealing with any invertible AEAD and then protecting the header, and unprotecting and opening, are inverse, with the same associated data and nonce input on both sides |
| Datagram.SealedForm | quic/format.c:1090-1151 | unmasked, a sealed packet is the header, the truncated number, and the payload sealed under that number with all in front of it as associated data |
| Datagram.OpenFirst | quic/format.c:623-790 | the first packet of a datagram opens to its payload and leaves what follows untouched |
| Datagram.CoalescedRoundTrip | quic/stream.c:442-470 | a datagram of long packets, optionally followed by a short one, opens to exactly its payloads in order |
| Datagram.IdsIff | quic/format.c:69-129 | a long header is taken exactly if it carries the established version, a connection ID of this endpoint and one of the peer, with allowed lengths, in the one way to write them, and a client does not know its peer by an empty one |
| Datagram.TokenIff | quic/format.c:604-621 | a token is taken exactly if it is empty or the known one |
| Datagram.OtherTypesRefused | quic/format.c:623-652 | of the long packets only Initial and Handshake ones are opened |
| Datagram.ShortIff | quic/format.c:146-175 | a short packet is opened exactly if it carries a connection ID of this endpoint and unseals |
| Datagram.LongParse | quic/format.c:69-129 | the header parser reads version, connection IDs, token and Length of a long packet, with its checks |
| Datagram.TokenParse | quic/format.c:604-621 | the token check |
| Datagram.IdsParse | quic/format.c:69-129 | version and connection IDs are read and compared with the established ones |
| Datagram.TailParse | quic/format.c:623-652 | the token of an Initial packet and the Length with its guard, and whether a Length passes it that is larger than the rest |
| Datagram.LengthParse | quic/format.c:623-652 | the Length is read and compared with the rest, as the guard does it |
| Datagram.ReadLong | quic/format.c:623-763 | a long packet is cut out by its Length and opened |
| Datagram.ReadBody | quic/format.c:655-696 | exactly the bytes that Length counts are opened |
| Datagram.ReadShort | quic/format.c:765-790 | a short packet takes the rest of the datagram |
| Datagram.ShortDcid | quic/format.c:146-175 | its connection ID has the length of this endpoint's and is one of them |
| Datagram.ReadPacket | quic/stream.c:455-467 | one turn of the receive loop opens the packet at the cursor and moves behind it |
| Datagram.Receive | quic/stream.c:442-470 | the receive loop yields all packets of a datagram up to the first bad one, and says whether it met a Length that leads out of the packet |
| Datagram.WildLengthIff | quic/format.c:623-652 | exactly the Lengths above the rest that the guard lets pass |
| Datagram.WildCounterexample | quic/format.c:623-652 | a Length of 2^32 + 30 passes where 30 bytes are left |
| Datagram.OpenedIsTame | quic/format.c:623-652 | a datagram opened to its end holds no such Length |
| CryptoFrames.BuildFrame | quic/format.c:829-867 | a frame carries all that is left of the data, or uses the buffer up except for what its length field shrank by |
| CryptoFrames.SubVarLen | quic/format.c:829-867 | how many bytes go behind a length field: all, if they fit with it, or as many as the space has beside it; it fails exactly if there is room for neither |
| CryptoFrames.AddFrame | quic/frame.c:1080-1112 | one turn of the split loop extends the tiling |
| CryptoFrames.Queue | quic/frame.c:1064-1078 | a full buffer is queued and a new one begun |
| CryptoFrames.Split | quic/frame.c:1080-1112 | the loop ends, its frames tile the message, and every buffer but the last has at most three bytes free |
| CryptoFrames.SplitThenReassemble | quic/frame.c:218-262 | delivering the buffers that Split made, in any order, padded or not, each at least once, leaves exactly the message in the receive buffer |
| CryptoFrames.OthersRefused | quic/frame.c:156-262 | a frame of another type, or one that is cut short, makes the payload fail |
| CryptoFrames.TlsBuffer.ParseFrame | quic/frame.c:218-262 | the parser copies a frame to its offset, grows the storage and moves the length; a cut-short frame changes no data |
| CryptoFrames.TlsBuffer.ParsePayload | quic/frame.c:156-216 | the frame loop applies all CRYPTO frames of a payload in turn |
| Queues.MoveOrdered | quic/core.c:96-97 | a sent queue stays strictly increasing in packet number and bounded by the last number used |
| Queues.MoveConserves | quic/core.c:96-97 | moving a buffer to its sent queue loses, doubles and reorders nothing in any space |
| PacketLength.TotalLenExact | quic/format.c:1026-1088 | the computed length is that of the sealed packet for long headers and one more for short ones |
| PacketLength.BuffLenFits | quic/frame.c:1114-1127 | a buffer filled to its computed length makes a packet that fits the segment size |
| PacketLength.BuffLenFills | quic/frame.c:1114-1127 | and it fills the segment, exactly for a short packet and up to what the Length field shrinks by for a long one |
| PacketLength.PaddingFitsIff | quic/format.c:1153-1190 | exactly when the buffer has room for the padding to 1200 bytes |
| PacketLength.PaddingFits | quic/format.c:1153-1190 | from 1201 bytes on it always has, and the padded datagram has 1200 or 1201 bytes |
| PacketLength.PaddingCounterexample | quic/format.c:1153-1190 | with 1200 bytes a four-byte Handshake payload cannot be padded |
| Coalescing.TakeFits | quic/core.c:62-82 | what the loop coalesces fits together if the first packet fits; only the last may be short; and it stops only at a short packet or one that would not fit |
| Coalescing.PlanByIs | quic/core.c:62-101 | the loop sends the coalesced buffers, each numbered in its space, and pads the last one |
| Coalescing.StampAllOrdered | quic/format.c:1108-1110 | sending any front part of a datagram keeps the sent queues sorted |
| Coalescing.StampAllConserves | quic/core.c:93-97 | and conserves every space's line of sent and waiting buffers |
| Coalescing.StampAllNumber | quic/format.c:1108-1110 | each buffer takes the number after the last one its space used, however many go before it |
| SendQueue.FullIsSealable | quic/format.c:399-402 | buffers of four bytes with the packet number, padding aside, always make a datagram |
| SendQueue.DatagramFits | quic/core.c:48-107 | no packet runs out of room; every datagram that can be built is at most the segment size, only its last packet is short, and one that ends in a long packet has at least 1200 bytes |
| SendQueue.DatagramIsMaximal | quic/core.c:73-82 | a buffer is left for the next datagram only behind a short packet or when it does not fit |
| SendQueue.SentIsReceived | quic/core.c:48-107 | the peer opens the datagram to the payloads of the moved buffers in queue order, the last one with its padding |
| SendQueue.PlanKeeps | quic/core.c:62-101 | whatever part of a datagram is moved, sorting and conservation hold |
| SendQueue.DrainedIsReceived | quic/quic_lib.c:554-584 | over a whole run of the drain loop every datagram fits and the peer opens exactly the buffers that left the queue, in order |
| SendQueue.Endpoint.PacketBuild | quic/format.c:1090-1151 | building succeeds exactly when the packet fits and is long enough for its sample, and gives the sealed packet |
| SendQueue.CompleteIff | quic/core.c:48-107 | a call succeeds exactly if flow control refuses none of the buffers of its datagram and each has keys and is long enough |
| SendQueue.CallKeeps | quic/core.c:48-107 | however a call ends, the sent queues stay sorted, and each buffer waits or was moved, in order; only a refusal adds one |
| SendQueue.CallNumbers | quic/format.c:1108-1110 | a call uses one number for each buffer it moves, and one more in the space of a build that failed behind the keys |
| SendQueue.FailedLeaves | quic/format.c:1153-1205 | what a failed build leaves in its buffer: the padding if it would have been the last, the number if there were keys; all others stay as they were |
| SendQueue.CompleteCall | quic/core.c:48-107 | a call that succeeds has sealed every buffer of its datagram |
| SendQueue.JammedIff | quic/format.c:399-402 | with keys and no refusal a call fails at the first buffer exactly if that is too short for its sample, padding included |
| SendQueue.JammedFails | quic/core.c:48-107 | and then every call fails, moves nothing, and leaves that buffer first and as short as before |
| SendQueue.JammedNeverDrains | quic/quic_lib.c:554-584 | such a queue sends no datagram at all |
| SendQueue.NoticeJamsIff | quic/frame.c:832-840 | the DATA_BLOCKED frame stops the queue it heads exactly if fewer than 64 bytes were sent and packet numbers take one byte |
| SendQueue.JamCounterexample | quic/stream.c:658-663 | a write refused when nothing was sent, and then allowed, leaves such a queue |
| SendQueue.Endpoint.BuildPkt | quic/format.c:1153-1205 | a buffer is built exactly if its space has keys and, with its padding, it is long enough; what a failure leaves of padding, number and queue |
| SendQueue.Endpoint.AddPadding | quic/format.c:1171-1183 | the padding always has room, and the padded packet stays in the segment |
| SendQueue.Endpoint.Turn | quic/core.c:62-101 | one turn of the loop: last-packet test, build, and the move to the sent queue |
| SendQueue.Endpoint.IsEnd | quic/core.c:73-78 | the last-packet test; when it fails the next packet still fits |
| SendQueue.Endpoint.Next | quic/core.c:84-100 | the body of the loop: flow control, build, move |
| SendQueue.Endpoint.WriteLoop | quic/core.c:62-101 | the loop moves the planned buffers one by one until the datagram is full, flow control refuses, or one cannot be built |
| SendQueue.Endpoint.WritePkt | quic/core.c:48-107 | the new queues and the datagram in every case, also after a refusal or a failure half-way |
| SendQueue.Endpoint.SendPacket | quic/quic_lib.c:554-584 | the drain loop ends; the datagrams that went out, the queues after success and after a failing call, and what rwstate says; with a file descriptor success empties the queue |
| SendQueue.Endpoint.Add | quic/format.c:1241-1244 | a buffer joins the end of the transmit queue |
| AckRanges.DescendingDisjoint | quic/frame.c:420-434 | ranges of a frame are disjoint and descending |
| AckRanges.ScanIs | quic/q_buff.c:205-231 | the scan of a sorted queue removes exactly the packets in the range and returns NULL exactly when the front packet is not below it |
| AckRanges.ScanConserves | quic/q_buff.c:205-231 | each packet is kept or freed, none dropped or doubled |
| AckRanges.CallsExact | quic/frame.c:416-434 | the calls of the parser fault exactly when there is a second range and a packet below the first one; otherwise exactly the packets outside all ranges stay, in their order |
| AckRanges.CallsCounterexample | quic/frame.c:416-434 | ranges 5 and 1 with packet 3 in flight fault |
| AckRanges.MeantExact | quic/q_buff.c:205-231 | a scan that resumes from its start, as the parameter suggests, always leaves exactly the packets outside all ranges |
| AckRanges.UnackedSorted | quic/q_buff.c:205-231 | an acknowledged queue stays sorted |
| SentRuns.ScanSorted | quic/q_buff.c:205-231 | whatever the range, a scan keeps a sorted queue sorted |
| SentRuns.CallsSafe | quic/frame.c:416-434 | whatever the ranges, also with a fault, the queue stays sorted and each packet is kept or freed |
| SentRuns.RunSafe | quic/core.c:62-101 | over every run of queueing, writing, failing calls and ACK frames the sent queues are strictly increasing and bounded, and a buffer is in as many places (waiting, sent, acknowledged) as it was queued |
| SentRuns.AckTakes | quic/frame.c:416-434 | an ACK frame takes exactly the packets its ranges cover out of the sent queue of its space, unless it faults, and changes nothing else |
| SentRuns.KeysUnblock | quic/core.c:48-107 | once the keys are there, a queue of buffers that are long enough is sent, datagram by datagram |
| SentRuns.WiredIff | quic/quic_lib.c:564-573 | over every run the buffers moved are those of the datagrams the socket took exactly if every failing call had moved none |
| SentRuns.StrandedCounterexample | quic/core.c:84-97 | an Initial buffer is moved and never sent when the Handshake keys for the second packet are missing |
| SentRuns.WiredIsReceived | quic/quic_lib.c:554-584 | over every run, whatever fails in it, the peer opens exactly the buffers that got to the wire, in order, with their padding |
| SentRuns.JammedForever | quic/core.c:48-107 | in every run from a queue headed by a packet too short for its sample no buffer is moved and the first one stays |
| SentRuns.AssertsIff | quic/format.c:306-312 | over every run the encoder's assertion holds for each next number exactly if no ACK frame names a number beyond it |
| SentRuns.AssertCounterexample | quic/frame.c:391-393 | one frame that names number 2 in an unused space is enough |
| Ack.SignTestIff | quic/frame.c:410-432 | the test for a range below zero looks at bit 31 and is right exactly when that bit tells the sign |
| Ack.SignTestCounterexample | quic/frame.c:410-432 | it takes a range that starts 2^32 below zero and refuses one that starts at 2^31 |
| Ack.ParseDescending | quic/frame.c:371-437 | from numbers below 2^31 - 1 the parser takes only disjoint descending ranges |
| Ack.ParseBack | quic/frame.c:371-437 | the parser recovers the ranges of every well-formed frame |
| Ack.AckProcessing | quic/frame.c:371-437 | a well-formed frame leaves exactly the packets outside its ranges, sorted, or faults under the exact condition |
| Ack.OwnAcks | quic/frame.c:857-887 | what the ACK builder writes acknowledges only the largest packet seen, and only that one leaves the peer's queue |
| Ack.LargestAckedGrows | quic/frame.c:391-393 | the largest acknowledged number becomes the maximum |
| Ack.Acks.AckSentPkt | quic/q_buff.c:205-231 | the reverse scan in place: what stays, what is processed in which order, and the returned place |
| Ack.Acks.AckParser | quic/frame.c:371-437 | the parser's effect on the queue, its result and the cursor for every input |
| Receiving.CopyIs | quic/stream.c:386-440 | a read returns as many of the bytes in line as were asked for, and its assertion fails exactly when none were asked for and there are some |
| Receiving.RecvStream.OrderedNow | quic/stream.c:682-698 | the loop decides whether the queue continues the read offset without a gap |
| Receiving.RecvStream.DataAdd | quic/stream.c:670-742 | duplicates are dropped, overlaps trimmed, gaps queued |
| Receiving.RecvStream.StreamFrame | quic/frame.c:482-528 | the state changes of a STREAM frame and what it does to the queue |
| Receiving.RecvStream.CutFrame | quic/frame.c:491-501 | a frame whose data is cut short still records its FIN |
| Receiving.RecvStream.ResetFrame | quic/frame.c:320-325 | the state changes of RESET_STREAM |
| Receiving.RecvStream.CopyLoop | quic/stream.c:394-421 | the copy loop: bytes, queue and offset, or the failed assertion |
| Receiving.RecvStream.ReadData | quic/stream.c:386-440 | bytes, queue, offset, state and flags of a read |
| Delivery.Safety | quic/stream.c:386-742 | over every run of arrivals, resets and reads the bytes handed out are the sender's stream between the read offsets |
| Delivery.SafetyFromStart | quic/stream.c:386-742 | from a new stream on they are its prefix |
| Delivery.StuckForever | quic/stream.c:394-398 | a stream whose head does not continue it hands out nothing ever again |
| Delivery.ArrivalFlowsIff | quic/stream.c:700-742 | an arrival stops a stream exactly when it is queued first, in front of a gap |
| Delivery.ArrivalQueued | quic/stream.c:700-731 | exactly what an arrival queues: if it is accepted and allowed and reaches past the read offset, all its bytes from there on, behind the others; otherwise nothing |
| Delivery.ArrivalState | quic/frame.c:482-505 | what an arrival makes of the state: the size is known from a FIN that comes in RECV |
| Delivery.OverlapIff | quic/stream.c:717-723 | a segment that overlaps the bytes in line keeps the queue in line exactly if none of them waits to be read |
| Delivery.OverlapCounterexample | quic/stream.c:717-723 | a segment that overlaps waiting bytes and continues them stops the stream behind those |
| Delivery.StuckCounterexample | quic/stream.c:714-718 | a segment in front of a gap, first in the queue, stops the stream for good |
| Delivery.ReadFlowsIff | quic/stream.c:394-421 | a read stops a stream exactly when it ends inside a segment or in front of one that does not continue it |
| Delivery.InLineDelivers | quic/stream.c:386-742 | with arrivals that go on where the bytes in line end, overlapping what was read, and reads that ask for all there is, every new byte was handed out or is next in line |
| Delivery.RecognisedAt | quic/stream.c:736-741 | the arrival that completes a stream leaves its own end behind the last byte in line |
| Delivery.EndIsRecogniser | quic/stream.c:700-742 | over every run, whatever flow control says, a reported end lies exactly at the end of the segment that made the stream DATA_RECVD |
| Delivery.EndCompleteIff | quic/stream.c:423-430 | over every run a reported end is complete if and only if the segment that was recognised ends the stream |
| Delivery.FinMeansAll | quic/stream.c:423-430 | a reported end is complete if no FIN segment is refused or cut short |
| Delivery.EndRecognisedIff | quic/stream.c:714-741 | the end is recognised exactly when the size is known and an allowed segment reaches past the read offset with everything before it read |
| Delivery.EndReported | quic/stream.c:423-430 | a recognised end is reported by the read that takes the rest |
| Delivery.FinRecognisedOrMissed | quic/frame.c:491-517 | a FIN segment that is not refused is recognised or missed |
| Delivery.MissedForever | quic/stream.c:714-741 | a missed end is never reported, whatever comes after |
| Delivery.FinCounterexample | quic/stream.c:728-741 | if one is refused, the end may be reported with the last byte missing |
| Delivery.StatesOnlyRise | quic/frame.c:320-325 | receive states only move up over every run, and DATA_READ, RESET_RECVD and DISABLE stay |
| Delivery.RecvEdgesIff | quic/frame.c:290-328 | a stream changes its state exactly along the edges of the receiving state machine, each under its condition |
| Delivery.ResetForever | quic/frame.c:320-325 | RESET_STREAM ends a stream that still receives or waits to be read; from then on, in every run, nothing is queued and every read reports the reset |
| Delivery.ResetBranchIsDead | quic/stream.c:736-741 | from the parser the RESET_RECVD branch of QuicStreamDataAdd is never taken |
| SharedBuffers.MoveKeeps | quic/base.c:144-185 | each step keeps the count of a buffer equal to its holders, segments inside live buffers, and no buffer touched after it was freed |
| SharedBuffers.RunKeeps | quic/format.c:765-790 | and so does every run |
| SharedBuffers.FreeAllIs | quic/stream.c:744-748 | freeing segments takes their number off each count and frees each buffer once |
| SharedBuffers.NoLeak | quic/base.c:174-185 | with the parser out and the queues empty every buffer is freed |
| SharedBuffers.MoveIs | quic/format.c:765-790 | a move is one step of the stream it names and leaves the others and the hold alone |
| SharedBuffers.SegmentShows | quic/stream.c:571-592 | the segment of a frame shows the bytes of the packet where the frame has its data |
| SharedBuffers.ShutdownFreesAll | quic/base.c:144-185 | from every reachable connection, when the parser lets go and the streams are closed every buffer ever made is freed |
| SharedBuffers.DataBuf.Take | quic/base.c:165-172 | taking a reference |
| SharedBuffers.DataBuf.Drop | quic/base.c:174-185 | dropping a reference frees the buffer with the last one |
| Streams.InitOk | quic/stream.c:83-109 | a new table satisfies the invariant |
| Streams.InitStreams | quic/stream.c:40-81 | what each stream of a new table is, by its identifier |
| Streams.StepKeeps | quic/stream.c:236-668 | every call keeps the invariant and only raises states, limits and counts |
| Streams.RunKeeps | quic/stream.c:594-668 | in every run, for any limits, the counts of the streams add up to those of the connection, each is within the limit it is held against, limits are only raised and states only move up |
| Streams.SentIsGranted | quic/stream.c:653-666 | the connection's count of sent bytes is the sum of all that flow control granted |
| Streams.ReceivedOk | quic/stream.c:594-633 | a stream's count of received bytes is what was read plus what is queued |
| Streams.FrameTaken | quic/frame.c:440-529 | a STREAM frame for a stream that receives: if flow control allows the bytes from the read offset on, they are queued and counted for stream and connection; if not, nothing is; the receiving half changes as an arrival with that verdict |
| Streams.ReceivedIsTaken | quic/stream.c:594-633 | over every run the connection has received the sum of what its frames had taken |
| Streams.StreamRuns | quic/stream.c:272-304 | over every run of the table the receiving half of each stream runs as a stream by itself does, so what is proved of one stream holds of each |
| Streams.SendEdges | quic/frame.c:895-1002 | a call changes the sending state of no stream but its own, and only along an edge of the state machine with the call that edge asks for |
| Streams.SendEdgeTaken | quic/frame.c:967-983 | and every edge a call asks for is taken |
| Streams.AckedMeansSent | quic/q_buff.c:192-196 | in every run a stream in DATA_RECVD had FIN sent and, after that, acknowledged |
| Streams.IdsDistinct | quic/stream.c:201-266 | the identifiers handed out in a run are distinct, in the table, with the right low bits, and were never opened before |
| Streams.OpensNext | quic/stream.c:253-255 | the assertion of QuicStreamOpen holds in every reachable table |
| Streams.OpenedStream | quic/stream.c:253-263 | an opened stream may send up to the peer's limit for its kind, receives if bidirectional, and no other stream changes |
| Streams.TouchKeeps | quic/stream.c:272-304 | a lookup keeps the invariant, by which every stream from 1 to the largest looked up has left START |
| Streams.RoomForHalf | quic/stream.c:18-32 | with the same number granted for both kinds by both sides, the places are about half of it |
| Streams.RoomIff | quic/stream.c:201-234 | a stream can be opened exactly if the peer grants it and the table has a place |
| Streams.AllOpenIff | quic/stream.c:556-569 | for any grants below 2^29, all streams of a kind can be opened exactly if the table's length has places for them |
| Streams.RoomCounterexample | quic/stream.c:83-109 | with two of each kind a client can open no unidirectional stream |
| Streams.OpenedUsableIff | quic/stream.c:158-199 | a stream just opened is found exactly when it is below the endpoint's own limit |
| Streams.FoundIff | quic/stream.c:272-304 | in every reachable table a lookup finds exactly the streams the peer may open and those of its own that were opened below its own limit |
| Streams.MaxIdBits | quic/stream.c:18-32 | the largest identifier, bit by bit |
| Streams.FirstFinIff | quic/frame.c:482-505 | FIN on a stream's first frame is recorded exactly when it is not stream 0 |
| Streams.SendOnlyLimitStays | quic/frame.c:613-650 | a unidirectional stream of one's own keeps its first limit through every run |
| Streams.MaxStreamDataRaisesIff | quic/frame.c:613-650 | on any other stream MAX_STREAM_DATA sets the limit to the larger value exactly if the macro sees the two in their order |
| Streams.RaisedIff | quic/frame.c:597-601 | MAX_DATA and MAX_STREAMS never lower a limit exactly if the macro does not take a smaller value for a larger one |
| Streams.LimitFrames | quic/frame.c:582-611 | MAX_DATA and MAX_STREAMS set the limit they name and no other |
| Streams.LoweredCounterexample | quic/frame.c:597-601 | a frame that names 1 lowers a limit of 2^31 + 5 |
| Streams.RefusedCounterexample | quic/stream.c:653-663 | with a limit of 2^31 + 2 and nothing sent, one byte is refused |
| Streams.SendAllowedIff | quic/stream.c:635-668 | exactly which lengths send flow control allows, in remainders modulo 2^32 |
| Streams.SendRightIff | quic/stream.c:635-668 | flow control never allows more than both limits permit, and allows all they permit exactly if neither is so far ahead that the macro takes it for passed |
| Streams.PeerStreamNeedsGrant | quic/stream.c:653-657 | in every run a bidirectional stream of the peer can send nothing before MAX_STREAM_DATA |
| Streams.RecvAllowedIff | quic/stream.c:594-633 | exactly which received lengths flow control takes |
| Streams.StreamAdvertisedIff | quic/stream.c:605-621 | a stream stays within its advertised limit, whatever comes next on it, exactly if what flow control takes is not more |
| Streams.ConnectionAdvertisedIff | quic/stream.c:623-627 | the connection stays within its advertised limit, whatever comes next on a stream, exactly if what flow control takes is not more |
| Streams.AdvertisedKept | quic/stream.c:594-633 | in every reachable table the advertised limits are kept if the compared ones are not above them; on streams only the peer sends on they always are |
| Streams.AdvertisedCounterexample | quic/stream.c:594-633 | five bytes pass where this endpoint advertised none |
| Streams.StreamTable.constructor | quic/stream.c:556-569 | the table of a connection, stream by stream |
| Streams.StreamTable.GenId | quic/stream.c:201-234 | the next identifier of a kind, or none at the peer's limit or the end of the table |
| Streams.StreamTable.OpenStream | quic/stream.c:201-266 | identifier, state and limit of an opened stream, with its assertion |
| Streams.StreamTable.GetInstance | quic/stream.c:272-304 | what is found, and the loop that opens all lower streams |
| Streams.StreamTable.SendFlowCtrl | quic/stream.c:635-668 | sent bytes are charged exactly when both limits allow |
| Streams.StreamTable.Charge | quic/stream.c:653-667 | the two tests and the counts |
| Streams.StreamTable.RecvFlowCtrl | quic/stream.c:594-633 | received bytes are charged exactly when both limits allow |
| Streams.StreamTable.StreamParser | quic/frame.c:440-529 | the effect of a complete STREAM frame on the table |
| Streams.StreamTable.TakeFrame | quic/frame.c:482-528 | the part of the parser after the lookup |
| Streams.StreamTable.DataAdd | quic/stream.c:700-742 | arrival with its flow control |
| Streams.StreamTable.Apply | quic/frame.c:290-369 | the effect of the other frames, of frames cut short, of builders and acknowledgements on one stream |
| Streams.StreamTable.RaiseParam | quic/frame.c:582-611 | MAX_DATA and MAX_STREAMS leave the larger of the old and the named value, as the macro orders the two |
| Handshake.TurnShrinks | quic/tls/tls.c:192-253 | every turn that goes on reads a message or comes nearer to the end, so the state loop terminates |
| Handshake.SkipDeepens | quic/tls/tls.c:85-92 | the skip loop moves towards the end and terminates |
| Handshake.CallsKeep | quic/tls/tls.c:56-316 | every run handles messages in the order of the table, each with its type, leaving out none that is needed |
| Handshake.TurnRecords | quic/tls/tls.c:132-139 | a turn records the message of its state exactly if the handler does not fail and, where it reads, a whole message is there that it waits for |
| Handshake.CallsRecord | quic/tls/tls.c:192-253 | over every run the record is exactly what counted, turn by turn |
| Handshake.AllFail | quic/tls/tls.c:132-136 | where every handler fails nothing is handled, whatever arrives |
| Handshake.ReadEnds | quic/tls/tls.c:56-142 | how a turn of reading ends for every input: more to read, dropped, an error, or handled |
| Handshake.WriteEnds | quic/tls/tls.c:144-190 | a turn of writing: a handler that fails changes nothing |
| Handshake.PostWork | quic/tls/tls.c:235-237 | which messages have work after them |
| Handshake.RetransmittedIff | quic/tls/tls.c:35-54 | a type counts as seen before exactly if the state that reads it has a lower number |
| Handshake.ClientCompletes | quic/tls/tls_clnt.c:40-131 | a client whose handlers do not fail handles every message of the flight, full or resumed, in two calls |
| Handshake.ServerCompletes | quic/tls/tls_srvr.c:43-137 | a server whose handlers do not fail is done after three calls with every message handled |
| Handshake.ClientOrder | quic/tls/tls_clnt.c:40-131 | a client that gets to its Finished has handled ServerHello, EncryptedExtensions and Finished in that order, with Certificate and CertificateVerify between unless the session is resumed |
| Handshake.ServerOrder | quic/tls/tls_srvr.c:43-137 | a server is done only after ClientHello, its own flight, the client's Finished and exactly two tickets |
| Handshake.ClientNeverDone | quic/tls/tls_clnt.c:120-130 | the engine of a client never gets to the final state |
| Handshake.DropIsOld | quic/tls/tls.c:35-54 | a message is dropped only if the state that reads it lies behind |
| Handshake.DropKeepsStateIff | quic/tls/tls.c:84-105 | a dropped message leaves the state alone exactly when nothing can be skipped there |
| Handshake.DroppedRequest | quic/tls/tls.c:84-105 | after a repeated ServerHello a certificate request is dropped as old |
| Handshake.Engine.MsgRetrans | quic/tls/tls.c:35-54 | the table scan finds the first state that reads a type |
| Handshake.Engine.Handler | quic/tls/tls.c:27-33 | a handler's own jumps win over the table |
| Handshake.Engine.HandshakeRead | quic/tls/tls.c:56-142 | reading a message with skips, drops and cut-short messages |
| Handshake.Engine.HandshakeWrite | quic/tls/tls.c:144-190 | writing a message |
| Handshake.Engine.RunStatem | quic/tls/tls.c:192-253 | the state loop |
| Handshake.Engine.DoHandshake | quic/tls/tls.c:255-316 | one call of the engine |
| CidPool.PositionIs | quic/connection.c:92-111 | on a sorted pool the scan that leaves early finds what the map from numbers to identifiers holds |
| CidPool.PositionIff | quic/connection.c:92-111 | on any pool the scan ends at the first entry with the number unless a larger one stands before it |
| CidPool.CidQueue.AddCid | quic/connection.c:62-66 | an identifier joins the end of the pool |
| CidPool.CidQueue.IssueCid | quic/connection.c:68-90 | an identifier is issued with the next number |
| CidPool.FindRefines | quic/connection.c:92-111 | on a sorted pool QuicCidFind finds what the map holds |
| CidPool.StepRefines | quic/connection.c:62-157 | issuing, retiring and retiring up to a number act on the pool as on the map |
| CidPool.RunRefines | quic/connection.c:62-157 | over every run, and the count is the length of the queue |
| CidPool.PeerPool | quic/frame.c:699-748 | in every run of frames the count is the length, within the active limit, and max_seq stays 0 |
| CidPool.FrameKeeps | quic/frame.c:699-748 | each frame keeps the count equal to the length and within the limit |
| CidPool.NewCidIff | quic/frame.c:699-731 | NEW_CONNECTION_ID retires first, then adds exactly if the identifier could be read and there is room |
| CidPool.PriorStops | quic/connection.c:144-157 | Retire Prior To removes from the front up to the first entry that is not below the number |
| CidPool.PeerFindsIff | quic/connection.c:96-98 | in the peer's pool a number is found only if the macro takes it for negative |
| CidPool.PriorLeavesNoneIff | quic/connection.c:144-157 | Retire Prior To leaves none below the number exactly when none of them stands behind one that stays |
| CidPool.PriorCounterexample | quic/connection.c:144-157 | identifier 1 behind identifier 3 survives Retire Prior To 2 |
| CidPool.RepeatedFrame | quic/frame.c:713-729 | a frame that comes twice adds its identifier twice |
| CidPool.CidQueue.FindCid | quic/connection.c:92-111 | the scan in place |
| CidPool.CidQueue.RetireCid | quic/connection.c:130-142 | removes the identifier found and counts down |
| CidPool.CidQueue.RetirePrior | quic/connection.c:144-157 | removes from the front while below the number |
| CidPool.CidQueue.NewConnectionId | quic/frame.c:699-731 | retires, checks the limit, then adds |
| TransportParams.RoundTrip | quic/tls/extension.c:202-349 | for every assignment of values below 2^62 parsing restores each integer field both tables have, independently of table order, and leaves the rest as it was |
| TransportParams.ClientToServer | quic/tls/extension_clnt.c:172-249 | the client's parameters reach the server, except for the active connection ID limit |
| TransportParams.ServerToClient | quic/tls/extension_srvr.c:151-215 | and the other way round |
| TransportParams.UnknownSkipped | quic/tls/extension.c:285-297 | an unknown parameter is skipped whatever is in it |
| TransportParams.TokenIgnored | quic/tls/extension.c:292-297 | the stateless reset token is skipped unread |
| TransportParams.WrittenIff | quic/tls/extension.c:202-239 | the constructor fails exactly for an integer of 2^62 or more |
| TransportParams.ForeignCid | quic/tls/extension_srvr.c:731-758 | a server that knows its peer by a connection ID refuses an initial source connection ID exactly if it is another one |
| TransportParams.ScidRefusedIff | quic/tls/extension_srvr.c:731-758 | a server refuses the parameters a client constructs exactly if it knows that client by another connection ID |
| TransportParams.CutRefused | quic/tls/extension.c:285-308 | a parameter of bytes that is cut short is refused |
| TransportParams.LengthIgnored | quic/tls/extension.c:299-308 | the length of an integer parameter is not looked at |
| TransportParams.ActiveLimit | quic/transport.c:122-133 | the active limit is never below two |
| TransportParams.Construct | quic/tls/extension.c:202-239 | the loop writes the entries whose checks pass, in table order, and fails exactly for a value of 2^62 or more |
| TransportParams.PeerParams.Parse | quic/tls/extension.c:265-312 | the parse loop and its failures |
| TransportParams.PeerParams.Entry | quic/tls/extension.c:285-308 | one parameter: skipped, stored or checked |
| Hkdf.Expand | quic/crypto.c:29-98 | the loop gives the first bytes of the blocks T(1), T(2) and so on, refuses more than 255, and does not end for 255 |
| Hkdf.EndsIff | quic/crypto.c:58 | the loop over a one-byte counter ends exactly when there are not 255 blocks |
| Hkdf.Extends | quic/crypto.c:58-91 | a longer output begins with the shorter one |
| Hkdf.OutputChain | quic/crypto.c:65-80 | in the output each block is the hash of the block in front of it, the info and its number |

## Left out

- Datagram.Receive: 0-RTT and Retry packets, version negotiation and the learning of connection IDs from the
  first packets are left out; both sides have their connection IDs, and header masks and AEAD are any
  functions with the inverse law. A payload whose frames cannot be parsed counts as one that does not open, and
  once a Length leads out of the packet nothing more is said.
- Datagram.TokenParse: a token cut short by the end of the packet is refused, where the code compares
  with memory behind it.
- Datagram.CodecGood: the nonce is made from the truncated packet number on both sides, as the code does, not
  from the full one that RFC 9001 asks for. The number itself is not decoded here; which one is refused is
  `PacketNumber.RefusedIff`.
- Datagram.ReadLong: the same. The assertion in QuicDecryptMessage (quic/format.c:543) compares a length that the
  cipher reports for the header with the size of the output; it is left out.
- Datagram.LongParse: it stops at a Length that leads out of the packet, as Datagram.Receive does.
- Datagram.TailParse: the same.
- Datagram.LengthParse: the same.
- Datagram.ReadPacket: the same.
- SendQueue.Endpoint.WritePkt: the verdict of send flow control is a parameter here; what it computes is in
  `Streams.StreamTable.SendFlowCtrl`.
- SendQueue.Endpoint.BuildPkt: the assertion in QuicEncryptMessage (quic/format.c:577) compares a length that the
  cipher reports for the header with the sealed length; the cipher is abstract here and the assertion left out.
  The one on the largest acknowledged number (quic/format.c:310) is in `SentRuns.AssertsIff`.
- SentRuns.AssertsIff: packet numbers stay below 2^31, where the macros are exact.
- PacketWriter.WPacket.Copy: sizes stay below 2^31, where the macros are exact; the growable buffer, in which an
  open part is a raw pointer, is left out.
- PacketReader.RPacket.GetBytes: sizes stay below 2^31, where the macros are exact.
- CryptoFrames.TlsBuffer.ParseFrame: offset and length together stay below 2^31; the reserved space in front of
  the TLS buffer is left out.
- CryptoFrames.TlsBuffer.ParsePayload: the same.
- Ack.Acks.AckParser: it returns the buffers whose stream flags are processed; what that does to a stream is the
  action `AckedFlags` of Streams.dfy.
- Ack.ParseDescending: for larger numbers the parser's own test is wrong, as `Ack.SignTestIff` says exactly.
- Delivery.Safety: a read for no bytes, which fails an assertion when there are some, is excluded.
- Streams.StepKeeps: lengths are below 2^31, as packets have them, and a limit in a frame is not 2^31 or more
  below the one in force, where the macro would take it for larger.
- Streams.RunKeeps: the same.
- Streams.RoomForHalf: fewer than 2^29 streams of a kind are granted, where the length of the table is exact.
- Streams.AllOpenIff: the same.
- Streams.StreamAdvertisedIff: limits stay below 2^31, where flow control takes all that is left up to the limit.
- Streams.ConnectionAdvertisedIff: the same.
- Handshake.Engine.DoHandshake: messages are a type and whether all of it is there; the offset arithmetic of the
  read buffer between calls is left out, so that each call may have any input.
- CidPool.RunRefines: fewer than 2^31 identifiers are issued, and Retire Prior To names a number below 2^31, where
  the macros are exact; retiring by number is for any number.
- CidPool.StepRefines: the same.
- TransportParams.PeerParams.Parse: a length of 2^31 bytes or more is refused here, where the macro may let it pass.
- TransportParams.PeerParams.Entry: the same.
- SendQueue.Endpoint.Add: connection IDs and token stay the same while buffers wait, so that each has the size
  QuicFrameGetBuffLen gives.
- Splitting one STREAM write over several frames: each frame takes its offset from a count that moves only when
  the packet is written.
- The message queue of the application interface, timers, loss detection and congestion control (there is none).
- OpenSSL, certificates, key derivation, sockets, logging, allocation failures and the pointers of the lists.
