# Nabto client SDK: protocol models and proofs

This project models three protocol components of the Nabto embedded client in
Dafny and proves what they are for.

* **The reliable stream** (`components/streaming`). A byte stream over a packet
  network that loses, duplicates and reorders. The sender keeps a send list, an
  unacked list and a resend list; the receiver keeps an allocated window and a
  read list; acks are runs of received and missing numbers counted down from the
  highest one, folded together when they do not fit.
* **CoAP** (`components/coap`). The codec of RFC 7252 section 3, Block1 and Block2
  transfers of RFC 7959 with sizes that shrink and one restart, retransmission of
  responses and notifications, and the server's tables of requests and observers.
* **mDNS** (`components/mdns`). Responses whose names are written with compression
  pointers (RFC 1035 section 4.1.4), and the matcher that follows them.

## How it is put together

Each component has up to three layers.

1. *Specification*: datatypes and functions, one per operation, with the branches
   of the C code (`StreamSender`, `StreamReceiver`, `StreamEndpoint`; `CoapCodec`,
   `CoapClient`, `CoapServer`, `CoapTable`; `Mdns`, `MdnsResponse`).
2. *Code*: classes and loops that change fields, lists and buffers step by step as
   the C code does, each proved to come to what the specification says
   (`StreamCode`, `StreamWireCode`, the array loops in `AckGaps`; `CoapCodecCode`,
   `CoapClientCode`, `CoapClientList`, `CoapTableCode`; `MdnsCode`, `MdnsBuild`).
3. *Systems*: what holds in every run.

The stream system (`StreamSystem` to `StreamTheorems`) is two endpoints, each with
the set of packets it has ever sent. A move is any call, timer, allocation or
packet creation of either end, or the delivery of any packet ever sent, any number
of times and in any order; losing a packet is never delivering it. Each end carries
a history: all segments it has queued, the bytes accepted, the bytes read, the
numbers acknowledged. The
invariant relates the lists of one end, the window of the other and that history,
and is kept by every move. From it follow prefix, conservation, end of file, FIN and
window theorems for all start numbers, segment sizes and runs.

Sequence numbers and stamps are unbounded integers in the model, and the code
compares them on 32 bit words. `SequenceNumbers` proves for which numbers that is
the same, `StreamBounds` how far apart the numbers an end keeps can come in any run,
and `StreamWords` that therefore the code's comparisons on handling packets that are
not ancient, on creating packets, on timeouts and on writes come out as the model's.

The Block1 system (`CoapUpload`) is a client that hears any messages whatsoever, and
a server that receives any of the packets the client created, repeated and
reordered, and may forget the request at any time. The Block2 system
(`CoapDownload`) is a server that receives any request packets and a client that
hears any of the replies ever sent.

## Assumptions

* The stream's allocator returns zeroed segments, and an initiator is opened once.
  How many segments the allocator has left is a parameter of every operation that
  allocates.
* `StreamWords`: no delivered packet but a reset is half the number space old, less
  two receive windows, and a single write queues no more than 0x7FFF0000 segments;
  `HugeWriteDiffers` shows that it may not queue 2^31. Everything else about the
  numbers is proved. Where a write may come before the first ack, a start number is
  taken as the signed value of its word, which every word has.
* Replay protection of the stream is off, or an ack with a nonce has been handled.
  With it on, an ack dropped for its missing nonce (nabto_stream_packet.c:464-475)
  has already advanced the stamp to echo, and an older ack that then establishes the
  stream leaves the window as it was; `WindowIsNewest` does not cover that.
* The tokens of a CoAP client do not wrap: fewer than 2^64 requests are made.
* `CoapUpload` and `CoapDownload`: a request body of fewer than 2^20 blocks of the
  initial size.
* mDNS names are made of labels of at most 63 bytes, and responses are smaller than
  0x4000 bytes, which is as far as a compression pointer reaches.

## Where the code does less than promised

* `handle_ack` (components/coap/src/nabto_coap_server_impl_incoming.c:537-573) leaves
  a queued retransmission queued when the block it acknowledges is not the last. An
  ack that arrives between the timeout and the retransmission therefore does not stop
  its message id, and the retransmission counter starts again: RFC 7252 section 4.2's
  limit of 1 + MAX_RETRANSMIT transmissions does not hold.
  `CrossingAcksRemoveTheBound` gives the run, `BoundedExactlyForLastBlocks` and
  `AckStopsItsIdExactly` say exactly when the limit holds.
* `build_packet` writes an empty subtype as an empty label, which readers take as the
  end of the name. `SkippingIsExact`: all owners are skipped to their ends exactly if
  no subtype is empty.
* A request for a further Block2 block on a token that the server does not know as
  answered calls the application with what there is of a body, or with nothing.
  `CoapFollowUp.CalledWithNothing` and `CalledWithPart` are runs, with no replies but
  the server's own, in which the application is called with nothing, or with the
  first chunk of a body, after it has been called with all of it;
  `AllCallsWholeExactly`: all calls in all such runs are with the whole body exactly
  if it is empty. `CoapUpload.BodyIsNeverTorn` says for each call on which packet it
  depends.
* `next_event` can choose something to send for which `get_connection_send` has no
  connection. `RemoveConnection` is proved to lead there exactly if the application
  holds a request of the connection with a Continue to send, and `AcceptObserve`
  exactly if the request has already lost its connection; nothing else does.
  `CoapLostConnection` has both runs from an empty server.
* Before its first ack a responder has a window of 0, so whether it may write depends
  on its start number: it may exactly if the word of that is 0 or at least 2^31.
  `WriteBeforeAckDiffers` is a run; `WriteBeforeAckAgreesExactly`: unsigned numbers
  decide as the words do exactly if the start number is less than half the space;
  `WritingRefinesNumbers`: signed ones always do.
* A reset carries the stamp 0, which to an end that has heard stamps of 2^31 or more
  is newer. It then becomes the stamp to echo, and the stream ends all the same:
  `RstIgnoresStamps`.
* The signed difference of two words exactly 2^31 apart is negative both ways, so
  each is less than the other: `HalfwayIsUnordered`.

## Model

| member | source | states |
|---|---|---|
| StreamTheorems.ReadIsPrefixOfWritten | components/streaming/src/nabto_stream.c:67-216 | in every run of two streams over a network that loses, duplicates and reorders, the bytes one end has read are a prefix of the bytes the other end has accepted |
| StreamTheorems.NothingIsLost | components/streaming/src/nabto_stream_window.c:798-857 | every accepted byte belongs to a segment that is still unacked or unsent at the sender, or is in the receive window or read list of the peer, or has been read |
| StreamTheorems.EofIsExact | components/streaming/src/nabto_stream.c:157-197 | reading reports end of file exactly when the peer's FIN has been received and every byte the peer ever accepted has been read |
| StreamTheorems.FinArrivesLast | components/streaming/src/nabto_stream_window.c:764-795 | a FIN on the network that reaches a state that acts on it is always for recvTop + 1, the number behind everything queued |
| StreamTheorems.NoNeededDataIsIgnored | components/streaming/src/nabto_stream_window.c:798-812 | in CLOSING, LAST_ACK and the other states that ignore data, every number of the peer has already been received |
| StreamTheorems.FinIsQueuedOnce | components/streaming/src/nabto_stream_window.c:478-530 | FIN is the one last segment, nothing is queued behind it, and while its ack is awaited something is outstanding |
| StreamTheorems.SenderListsPartition | components/streaming/src/nabto_stream_packet.c:698-752 | each number handed out has been acknowledged, or is in flight, or is yet to be sent, and only one of these, and no other number is any; what has been acknowledged the peer has received; flightSize is the length of the unacked list; what is to be resent is unacked |
| StreamTheorems.ReceiverWindowIsExact | components/streaming/src/nabto_stream_window.c:736-760 | the window list is exactly recvTop + 1 to recvMaxAllocated with an idle head and recvMax its highest filled slot, within the promised bounds, through failed and retried allocations |
| StreamTheorems.SegmentSizesAgree | components/streaming/src/nabto_stream_window.c:669-734 | after a handshake with any losses and repetitions each end's maximal send size is the other's maximal receive size |
| StreamTheorems.WindowPromiseIsKept | components/streaming/src/nabto_stream_window.c:859-880 | after a packet has been delivered to a connected end, each of its data segments and FIN at or below any window edge ever advertised has been received, if the allocator has the slots: whatever comes before it in the packet, and also if the packet's own ack establishes the stream |
| StreamTheorems.WindowIsNewest | components/streaming/src/nabto_stream_packet.c:374-382 | once an end runs or has anything in flight it has heard an ack, and the advertised window in use is that of the one with the newest stamp, in whatever order acks arrive (no ack is dropped for a nonce) |
| StreamRun.NodeStepKeeps | components/streaming/src/nabto_stream_packet.c:141-178 | every step of either end (call, timer, allocation, created or delivered packet) keeps the whole cross-endpoint invariant |
| StreamRun.RunKeeps | components/streaming/src/nabto_stream_packet.c:141-178 | so does every run, of any length |
| StreamAcked.StepKeepsAcked | components/streaming/src/nabto_stream_packet.c:343-440 | every step keeps this: a segment of the history has been taken off by an ack exactly if it is no longer outstanding |
| StreamAcked.AckTakes | components/streaming/src/nabto_stream_window.c:494-559 | what an ack acknowledges of the unacked list, with the new window in force, is what is outstanding no longer |
| StreamHandshake.DeliverCore | components/streaming/src/nabto_stream_packet.c:180-294 | delivering any packet the peer ever sent keeps the invariant, whatever has been delivered before |
| StreamHandshake.JoinStep | components/streaming/src/nabto_stream_window.c:669-698 | taking over the peer's start number and sizes keeps the invariant, for repeated SYN packets as well |
| StreamHandshake.OpenStep | components/streaming/src/nabto_stream.c:38-47 | opening keeps the cross-endpoint invariant |
| StreamHandshake.AcceptStep | components/streaming/src/nabto_stream.c:49-65 | accepting, with any allocations failing, keeps it |
| StreamHandshake.SynAckStep | components/streaming/src/nabto_stream_window.c:700-734 | a SYN and ACK in any state keeps it |
| StreamHandshake.RstStep | components/streaming/src/nabto_stream_window.c:566-591 | a reset in any state keeps it |
| StreamActions.WriteStep | components/streaming/src/nabto_stream.c:67-135 | a write of any bytes keeps the invariant, with exactly the accepted bytes appended to the history |
| StreamActions.CloseStep | components/streaming/src/nabto_stream.c:218-266 | close in any state keeps the invariant: FIN is queued at once or is owed |
| StreamActions.SendAckStep | components/streaming/src/nabto_stream_packet.c:661-696 | creating an ack packet keeps the invariant that everything ever sent is honest: acks of received numbers, segments of the history |
| StreamActions.ReadStepKeeps | components/streaming/src/nabto_stream.c:199-216 | reading any number of bytes keeps the invariant: what has been read and what is buffered stay the front of the peer's history |
| StreamNode.AckStep | components/streaming/src/nabto_stream_packet.c:343-440 | an honest ack, which removes what the peer has and may queue FIN, keeps the cross-endpoint invariant |
| StreamNode.DataStep | components/streaming/src/nabto_stream_window.c:798-843 | handling any data segment of the peer's history, in any order and any number of times, keeps the invariant: it is stored at its own place or ignored |
| StreamNode.FinStep | components/streaming/src/nabto_stream_window.c:764-795 | handling the FIN of the peer's history keeps the invariant: it comes last, and the state follows |
| StreamDelivery.FinIsNext | components/streaming/src/nabto_stream_window.c:764-795 | FIN being queued only when both lists are empty, and acks being honest, force a FIN that is acted on to recvTop + 1 with nothing in the window |
| StreamSender.AckKeepsSenderInv | components/streaming/src/nabto_stream_window.c:494-559 | an ack keeps both lists sorted with all unacked before all unsent, the resend list a sorted part of the unacked one and flightSize its length |
| StreamSender.RemainingIsFilter | components/streaming/src/nabto_stream_window.c:494-549 | what stays unacked is exactly what the ack does not acknowledge |
| StreamSender.ResendingIsFilter | components/streaming/src/nabto_stream_window.c:600-616 | the resend list after an ack holds exactly what stays unacked and was to be resent or has now been nacked often enough |
| StreamSender.WindowReducedOutstanding | components/streaming/src/nabto_stream_flow_control.c:5-27 | a reduced window moves the unacked segments beyond it to the front of the send list: nothing outstanding is lost or reordered |
| StreamSender.ResendStaysInFlight | components/streaming/src/nabto_stream_flow_control.c:5-27 | with a reduced window what is to be resent is still in flight |
| StreamSender.SendKeepsSenderInv | components/streaming/src/nabto_stream_packet.c:698-752 | sending any batch keeps the lists sorted, in order and counted |
| StreamSender.WriteKeepsSenderInv | components/streaming/src/nabto_stream.c:67-135 | writing keeps the lists sorted, in order and counted |
| StreamSender.CutIsPrefix | components/streaming/src/nabto_stream.c:86-128 | a buffer cut into segments is a prefix of the buffer, whole if there are segments enough |
| StreamReceiver.AckIsSound | components/streaming/src/nabto_stream_packet.c:786-846 | an ack acknowledges only what has been received and all up to recvTop, and its gaps sum to recvMax - recvTop |
| StreamReceiver.AckIsExact | components/streaming/src/nabto_stream_packet.c:786-846 | the acknowledged set is exactly what has been received when the runs fit the gap blocks |
| StreamReceiver.DataKeepsInv | components/streaming/src/nabto_stream_window.c:798-857 | storing data keeps the window exact, and a number in the window has been received afterwards |
| StreamReceiver.FindKeepsInv | components/streaming/src/nabto_stream_window.c:736-760 | looking for a slot, with any number of allocations succeeding, keeps the window exact and receives nothing |
| StreamReceiver.AllocateKeepsInv | components/streaming/src/nabto_stream_memory.c:42-61 | an allocated or failed segment keeps the window exact |
| StreamReceiver.ConsumeTakesFront | components/streaming/src/nabto_stream.c:199-216 | reading some bytes takes exactly the front of what is available |
| AckGaps.RunsExact | components/streaming/src/nabto_stream_packet.c:800-838 | the gaps of a window decode to exactly its filled slots |
| AckGaps.CollapseMeaning | components/streaming/src/nabto_stream_packet.c:805-815 | folding any number of blocks into the newest takes exactly the stretch they cover out of the acknowledged set |
| AckGaps.EncodedMeaning | components/streaming/src/nabto_stream_packet.c:786-846 | what a decoder takes as acknowledged is what is filled, less the folded stretch, after any number of consolidations |
| AckGaps.EncodedCoversEnds | components/streaming/src/nabto_stream_packet.c:805-815 | consolidation keeps the newest run and all up to recvTop acknowledged |
| AckGaps.AddGapBlocks | components/streaming/src/nabto_stream_packet.c:786-846 | the loop over the window, consolidating in its fixed array, computes the gaps that EncodedMeaning is about |
| AckGaps.Consolidate | components/streaming/src/nabto_stream_packet.c:805-815 | block 1 is folded into block 0 and the others move up, in place |
| SequenceNumbers.OrderSurvivesWrap | components/streaming/src/nabto_stream_util.c:221-249 | for numbers less than half the space apart, less, less-or-equal, max and equality of their words are those of the numbers |
| SequenceNumbers.SignedDifferenceExact | components/streaming/src/nabto_stream_util.c:232-235 | the signed difference of two words is the difference of the numbers exactly if that fits 32 bits |
| SequenceNumbers.HalfwayIsUnordered | components/streaming/src/nabto_stream_util.c:232-240 | two numbers exactly half the space apart are each less than the other |
| StreamBounds.AfterWithin | components/streaming/src/nabto_stream_window.c:222-237 | in every run of such writes: no more is outstanding than the limits on the lists and one write allow; the last number is no further than that above an ack that has been heard; and less than a receive window lies between what is acknowledged and what is outstanding below it |
| StreamBounds.TakenNear | components/streaming/src/nabto_stream_packet.c:402-440 | a number an ack takes off is less than a receive window above any that it leaves outstanding |
| StreamBounds.StepAscending | components/streaming/src/nabto_stream_packet.c:786-846 | the acks an end creates end no lower than earlier ones, in every step |
| StreamBounds.OutstandingIsNear | components/streaming/src/nabto_stream_window.c:222-237 | nothing outstanding is further behind the last number than what may be outstanding and a receive window |
| StreamBounds.WindowIsNear | components/streaming/src/nabto_stream_packet.c:374-382 | nor is the window in use, once an ack has been heard |
| StreamWords.WordsRefineNumbers | components/streaming/src/nabto_stream_packet.c:162-164 | in every run, handling a delivered packet that is not ancient makes only comparisons of numbers less than half the space apart, so the 32 bit comparisons come out as those of the unbounded model |
| StreamWords.SendingRefinesNumbers | components/streaming/src/nabto_stream_packet.c:698-752 | in every run so do the window comparisons made when a packet is created |
| StreamWords.TimeoutRefinesNumbers | components/streaming/src/nabto_stream_window.c:433-445 | and the comparisons that put what is unacked in order on a timeout |
| StreamWords.WritingRefinesNumbers | components/streaming/src/nabto_stream_window.c:222-237 | and whether there is a window to write into, before and after the first ack, for the signed value of any start word |
| StreamWords.WriteBeforeAckAgreesExactly | components/streaming/src/nabto_stream_window.c:222-237 | before the first ack unsigned numbers decide whether to write as the words do, exactly if the start number is less than half the space |
| StreamWords.WriteBeforeAckDiffers | components/streaming/src/nabto_stream_window.c:222-237 | a run, from the start number 0x80000005, in which they do not |
| StreamWords.HugeWriteDiffers | components/streaming/src/nabto_stream.c:86-128 | a run in which they do not after one write of half the number space of segments |
| StreamNear.RstIgnoresStamps | components/streaming/src/nabto_stream_window.c:566-591 | a reset ends the stream, and in the same way whatever stamp it leaves to echo |
| StreamCode.Stream.HandlePacket | components/streaming/src/nabto_stream_packet.c:141-178 | all packet kinds: the structure afterwards is the specified one, compared on 32 bit words; of a reset with an ancient stamp that stamp is echoed |
| StreamCode.Stream.ParseAckExtension | components/streaming/src/nabto_stream_packet.c:343-440 | walking the lists down the gap blocks, segment by segment, comes to the specified acknowledgement |
| StreamCode.Stream.HandleAckGaps | components/streaming/src/nabto_stream_packet.c:384-440 | the iterator over the unacked list and the gap blocks |
| StreamCode.Stream.AckBlock | components/streaming/src/nabto_stream_packet.c:442-451 | one run of acknowledged segments |
| StreamCode.Stream.NackBlock | components/streaming/src/nabto_stream_packet.c:453-459 | one run of missing segments |
| StreamCode.Stream.HandleNackIterator | components/streaming/src/nabto_stream_window.c:532-549 | one missing segment: counted if sent before the echoed stamp, to be resent at the second time |
| StreamCode.Stream.MarkSegmentForRetransmission | components/streaming/src/nabto_stream_window.c:600-616 | the sorted insertion into the resend list |
| StreamCode.Stream.AdvertisedWindowReduced | components/streaming/src/nabto_stream_flow_control.c:5-27 | segments beyond the edge move back, from the end of the unacked list to the front of the send list |
| StreamCode.Stream.HandleTimeout | components/streaming/src/nabto_stream_window.c:433-445 | after a timeout the resend list is the unacked list |
| StreamCode.Stream.WriteDataToPacket | components/streaming/src/nabto_stream_packet.c:698-752 | what is sent and what the lists are afterwards, for any room and window |
| StreamCode.Stream.WriteBuffer | components/streaming/src/nabto_stream.c:67-135 | status, count and lists after a write, for any number of segments the allocator has left |
| StreamCode.Stream.ReadBuffer | components/streaming/src/nabto_stream.c:199-216 | status, bytes and read list after reading up to a number of bytes |
| StreamCode.Stream.FindRecvBuffer | components/streaming/src/nabto_stream_window.c:736-760 | the window grows to the number or as far as the allocator lets it; the slot found is the number's own |
| StreamCode.Stream.MoveSegmentsFromRecvWindowToRecvRead | components/streaming/src/nabto_stream_window.c:845-857 | the filled front of the window moves to the read list |
| StreamCode.Stream.HandleDataSegment | components/streaming/src/nabto_stream_window.c:798-843 | a data segment, with every reason to ignore it |
| StreamCode.Stream.HandleFinSegment | components/streaming/src/nabto_stream_window.c:764-795 | a FIN segment, with the state that follows |
| StreamCode.Stream.CreateAckPacket | components/streaming/src/nabto_stream_packet.c:661-696 | the ack and the segments of a packet and the structure afterwards |
| StreamCode.Stream.CreateSynAckPacket | components/streaming/src/nabto_stream_packet.c:603-637 | a SYN and ACK with an ack of what has been received uses up a stamp and nothing else |
| StreamCode.Stream.GetRecvWindowSize | components/streaming/src/nabto_stream_window.c:859-880 | the window that is advertised |
| StreamWire.SplitIsUnique | components/streaming/src/nabto_stream_packet.c:109-139 | bytes split into extensions in at most one way, and exactly if they are the encoding of that list |
| StreamWire.RoundTrip | components/streaming/src/nabto_stream_packet.c:462-520 | every packet the stream creates decodes to its own acks and its own data and FIN segments, in order |
| StreamWire.OnlyWholePacketsAct | components/streaming/src/nabto_stream_packet.c:127-178 | a packet that changes anything splits exactly into extensions |
| StreamWire.AckPacketFitsBuffer | components/streaming/src/nabto_stream_packet.c:661-752 | the packet with the segments chosen for a room never exceeds the buffer |
| StreamWire.GapBlocksInverse | components/streaming/src/nabto_stream_packet.c:840-846 | gap blocks are read back as they were written |
| StreamWireCode.CreateAckPacket | components/streaming/src/nabto_stream_packet.c:661-696 | the bytes in the buffer are the encoding of the packet, and it is created exactly if two gap blocks fit |
| StreamWireCode.AddAckExtension | components/streaming/src/nabto_stream_packet.c:767-853 | the extension with its length filled in behind its back, with as many blocks as fit |
| StreamWireCode.WriteSegments | components/streaming/src/nabto_stream_packet.c:640-659 | data and FIN extensions, byte by byte |
| StreamWireCode.ExtensionsWellFormed | components/streaming/src/nabto_stream_packet.c:127-139 | the walk accepts exactly the bytes that split into extensions |
| StreamWireCode.CollectAcks | components/streaming/src/nabto_stream_packet.c:324-372 | a later walk sees the ack extensions of the same list |
| StreamWireCode.CollectSegments | components/streaming/src/nabto_stream_packet.c:462-520 | a later walk sees the data and FIN extensions of the same list |
| StreamWireCode.CollectRequest | components/streaming/src/nabto_stream_packet.c:180-294 | a later walk sees the last start number and sizes of the same list, and a bad nonce |
| StreamWireCode.ParsePacket | components/streaming/src/nabto_stream_packet.c:141-178 | what the bytes of a packet come to is their decoding |
| CoapCodec.Bijection | components/coap/src/nabto_coap.c:107-336 | bytes are parsed to a message if and only if they are its encoding |
| CoapCodec.OptionBytesAreTheirOptions | components/coap/src/nabto_coap.c:46-85 | re-encoding the options of an accepted packet gives its option bytes |
| CoapCodec.FieldUnique | components/coap/src/nabto_coap.c:21-44 | the three ranges of a delta or length are disjoint: a field has one encoding |
| CoapCodec.WalkEncoded | components/coap/src/nabto_coap.c:46-85 | walking encoded options gives them back and stops behind them, for any number of options |
| CoapCodec.EncodedWalk | components/coap/src/nabto_coap.c:46-85 | what a walk has passed is the encoding of what it found |
| CoapCodec.IntUnique | components/coap/src/nabto_coap.c:376-428 | a variable integer is re-encoded to the same bytes exactly if it had no leading zero |
| CoapCodecCode.ParseIncoming | components/coap/src/nabto_coap.c:107-228 | the loop over the options and the fields taken from them is the specified parse, for any bytes |
| CoapCodecCode.OptionIterator.GetNextOption | components/coap/src/nabto_coap.c:46-85 | one option, or none without having moved |
| CoapCodecCode.DecodeOptionField | components/coap/src/nabto_coap.c:21-44 | one delta or length |
| CoapCodecCode.EncodeOptionInto | components/coap/src/nabto_coap.c:283-316 | one option in a buffer, or nothing when it does not fit or is too long |
| CoapCodecCode.EncodeMessage | components/coap/src/nabto_coap.c:230-336 | header, options and payload in a buffer: written exactly if they fit |
| CoapCodecCode.EncodeVariableInt | components/coap/src/nabto_coap.c:398-428 | the shortest form, or none when it is too long |
| CoapCodecCode.ParseVariableInt | components/coap/src/nabto_coap.c:376-396 | the value, or none when there are too many bytes |
| CoapBlock.BlockOptionInverse | components/coap/include/nabto_coap/nabto_coap.h:176-204 | number, more bit and size are read back from the option made of them |
| CoapBlock.ShrinkKeepsMultiple | components/coap/src/nabto_coap_client_impl.c:33-43 | an offset of whole blocks is one of whole smaller blocks |
| CoapBlock.NumberIsPassed | components/coap/src/nabto_coap_client_impl.c:59-80 | counted in the present size, the place behind a block sent at any earlier size is past that block's number |
| CoapUpload.BodyIsNeverTorn | components/coap/src/nabto_coap_server_impl_incoming.c:284-423 | under any loss, duplication and reordering, with shrinking sizes, the restart and requests for further blocks, the server's partial body is a proper prefix of the client's; every packet but a follow-up calls the application with the whole body, and a follow-up does exactly if there is no body |
| CoapUpload.OffsetIsExact | components/coap/src/nabto_coap_client_impl.c:623-655 | after any replies the offset is a multiple of the size in force or the length of the body, and the emitted option decodes to exactly it within 20 bits |
| CoapUpload.EarlierRepliesAreStale | components/coap/src/nabto_coap_client_impl.c:59-80 | between restarts a reply for any acknowledged chunk that was not the last, sent at any earlier size, is stale |
| CoapUpload.CreatedPacketTrue | components/coap/src/nabto_coap_client_impl.c:623-655 | a created packet carries the part of the body its option names, whole blocks but for the last |
| CoapFollowUp.AllCallsWholeExactly | components/coap/src/nabto_coap_server_impl_incoming.c:390-422 | every call in every run, and in every run in which the client hears only what the server has sent last, is with the whole body exactly if the body is empty |
| CoapFollowUp.CalledWithNothing | components/coap/src/nabto_coap_server_impl_incoming.c:469-535 | for any body of any number of chunks an honest run: handed over whole, answered, forgotten, and then the request for a further block calls the application with nothing |
| CoapFollowUp.CalledWithPart | components/coap/src/nabto_coap_server_impl_incoming.c:390-422 | for any body of more than one chunk an honest run that ends with a call with the first chunk, delivered once more, for a body |
| CoapClient.MessageKeeps | components/coap/src/nabto_coap_client_impl.c:227-394 | no message whatsoever takes the offset off the block grid or out of the body |
| CoapDownload.AnswerIsNeverTorn | components/coap/src/nabto_coap_client_impl.c:237-337 | with an application that always answers the same, what the client has put together is a prefix of the answer, and all of it when the request completes with its code |
| CoapDownload.SentBlockTrue | components/coap/src/nabto_coap_server_impl.c:491-527 | a sent block is the part of the payload its option names |
| CoapDownload.PlacedIsPrefix | components/coap/src/nabto_coap_client_impl.c:280-337 | a block is appended only where it belongs; late and repeated ones leave the body alone |
| CoapDownload.RequestedBlock | components/coap/src/nabto_coap_server_impl_incoming.c:425-466 | a block request selects a block inside the payload or ends in an error |
| CoapRetransmit.AckMeansTransmitted | components/coap/src/nabto_coap_server_impl_incoming.c:55-80 | an ack or reset changes a response, confirmable or not, only if its message id has been transmitted; an ack ends it exactly at the end of the payload; the same ack right after it changes nothing |
| CoapRetransmit.TransmissionsAreBounded | components/coap/src/nabto_coap_server_impl.c:170-235 | each id is transmitted at most 1 + MAX_RETRANSMIT times as long as no ack finds a retransmission queued |
| CoapRetransmit.CrossingAcksRemoveTheBound | components/coap/src/nabto_coap_server_impl_incoming.c:537-573 | otherwise there is no bound: a run that transmits one id any number of times |
| CoapRetransmit.BoundedExactlyForLastBlocks | components/coap/src/nabto_coap_server_impl_incoming.c:537-573 | the bound holds in all runs exactly if the block is the last of its payload |
| CoapRetransmit.AckStopsItsIdExactly | components/coap/src/nabto_coap_server_impl_incoming.c:537-573 | an ack for a block that is not the last stops its id exactly if no retransmission is queued |
| CoapRetransmit.DuplicateAckIsIgnoredExactly | components/coap/src/nabto_coap_server_impl_incoming.c:537-573 | a duplicate of an ack, however late, changes nothing exactly if the block is the last or no retransmission was queued when the ack first arrived |
| CoapRetransmit.RequestsAreBounded | components/coap/src/nabto_coap_client_impl.c:748-788 | each message id of a client's request, also of its further chunks and blocks, is transmitted at most 1 + maxRetransmits times, whatever the client hears |
| CoapRetransmit.NotificationsAreBounded | components/coap/src/nabto_coap_server_impl.c:550-600 | each notification id is transmitted at most 1 + MAX_RETRANSMIT times, and only a transmitted one can be acknowledged or reset |
| CoapClientCode.ClientRequest.ParseAndHandleResponse | components/coap/src/nabto_coap_client_impl.c:227-394 | a response in every state, and whether it is acknowledged |
| CoapClientCode.ClientRequest.RequestCreatePacket | components/coap/src/nabto_coap_client_impl.c:580-682 | the packet to send and the request afterwards, or the failure when it does not fit |
| CoapClientList.RequestList.HandlePacket | components/coap/src/nabto_coap_client_impl.c:458-506 | a message changes only the first request that it matches, by token or by message id, as that request has it, and the reset and ack slots; requests, tokens and their places in their bodies stay in order |
| CoapClientList.RequestList.HandleAck | components/coap/src/nabto_coap_client_impl.c:396-410 | the first request that waits for this ack |
| CoapClientList.RequestList.HandleRst | components/coap/src/nabto_coap_client_impl.c:412-433 | the first request that this reset can still end |
| CoapClientList.RequestList.RequestNew | components/coap/src/nabto_coap_client_impl.c:806-835 | a new request has a token that no listed one has |
| CoapClientList.RequestList.HandleDeadlines | components/coap/src/nabto_coap_client_impl.c:748-788 | each request that waits and whose deadline has passed, and no other |
| CoapClientList.RequestList.GiveUp | components/coap/src/nabto_coap_client_impl.c:790-800 | each request, or each of a connection, that has not ended |
| CoapClientList.RequestList.GetNextEvent | components/coap/src/nabto_coap_client_impl.c:184-218 | the first request with something to send or to tell decides, then whether one waits |
| CoapClientList.RequestList.CreatePacket | components/coap/src/nabto_coap_client_impl.c:542-578 | reset, ack, or the packet of the first request that has one to send, which ends if it does not fit |
| CoapClientList.RequestList.HandleCallback | components/coap/src/nabto_coap_client_impl.c:150-182 | the first request that has ended is told of and done |
| CoapClientList.RequestList.Drain | components/coap/src/nabto_coap_client_impl.c:184-218 | doing what is next ends with nothing left to send or to tell, after no more steps than there was work |
| CoapClientList.SendIsFirst | components/coap/src/nabto_coap_client_impl.c:542-578 | create_packet sends for the very request that get_next_event found |
| CoapClientList.OneMatch | components/coap/src/nabto_coap_client_impl.c:509-521 | a response matches one listed request at most |
| CoapClientList.MessageKeepsOk | components/coap/src/nabto_coap_client_impl.c:227-394 | no message takes a request out of order |
| CoapTableCode.ReceiveData | components/coap/src/nabto_coap_server_impl_incoming.c:284-423 | a packet for a request being received: what the body becomes, when the application is called, and which error is answered |
| CoapTableCode.Requests.HandleRequestMessage | components/coap/src/nabto_coap_server_impl_incoming.c:96-197 | the whole effect of a request message, by token and connection: body, lists, application call, error, ack and reset slots |
| CoapTableCode.Requests.HandleExisting | components/coap/src/nabto_coap_server_impl_incoming.c:121-170 | duplicate, further chunk, block request or nothing |
| CoapTableCode.Requests.HandleNewRequest | components/coap/src/nabto_coap_server_impl_incoming.c:469-535 | a new request is listed, with the observer it deregisters gone, or answered with an error |
| CoapTableCode.Requests.HandleAckMessage | components/coap/src/nabto_coap_server_impl_incoming.c:537-573 | an ack reaches the first response in flight with its id, else the first such notification, else nothing |
| CoapTableCode.Requests.HandleRstMessage | components/coap/src/nabto_coap_server_impl_incoming.c:576-601 | a reset ends that response, or frees that observer and every pointer to it |
| CoapTableCode.Requests.ResponseReady | components/coap/src/nabto_coap_server_impl.c:942-956 | the response is set up at the block that was asked for, or the request is done when its connection is gone |
| CoapTableCode.Requests.RequestFree | components/coap/src/nabto_coap_server_impl.c:128-146 | freed by the application: answered with an error if it never was |
| CoapTableCode.Requests.AcceptObserve | components/coap/src/nabto_coap_server_impl.c:1060-1113 | registered in place of an earlier observer with the token, exactly if it asked for it and there is room; all that may be sent keeps a connection exactly if the request has its own |
| CoapTableCode.Requests.ResourceNotify | components/coap/src/nabto_coap_server_impl.c:1115-1180 | each observer of the resource without a notification in flight gets one with the next message id, the others a pending one |
| CoapTableCode.Requests.ObserverFree | components/coap/src/nabto_coap_server_impl.c:1000-1025 | the observer goes and with it every pointer to it, and no other |
| CoapTableCode.Requests.HandleTimeout | components/coap/src/nabto_coap_server_impl.c:170-235 | after the deadlines: both lists and all pointers |
| CoapTableCode.Requests.RemoveConnection | components/coap/src/nabto_coap_server_impl.c:1192-1238 | after a connection is gone: lists, pointers and slots; all that may be sent keeps a connection exactly if no request of it in the application's hands has a Continue to send |
| CoapTableCode.Requests.NextEventIsSend | components/coap/src/nabto_coap_server_impl.c:237-290 | there is something to send exactly if an item is pending |
| CoapTableCode.Requests.GetConnectionSend | components/coap/src/nabto_coap_server_impl.c:329-368 | the connection of the very item that handle_send sends, which there is as long as all that may be sent has one |
| CoapTableCode.Requests.HandleSend | components/coap/src/nabto_coap_server_impl.c:602-641 | exactly the next item is sent; one that does not fit stays to be sent, unless it is a response or Continue |
| CoapTableCode.Requests.Drain | components/coap/src/nabto_coap_server_impl.c:602-641 | sending into buffers that fit as long as there is something ends, after as many packets as there were pending items |
| CoapTable.SendingDrains | components/coap/src/nabto_coap_server_impl.c:237-290 | something is to be sent exactly while something is pending, and sending leaves one item fewer |
| CoapTable.NextIsConnected | components/coap/src/nabto_coap_server_impl.c:329-368 | when everything due and every observer has a connection, so has the next item |
| CoapTable.DisconnectConnectedExactly | components/coap/src/nabto_coap_server_impl.c:1192-1238 | losing a connection keeps that so exactly if the application holds no request of it with a Continue to send |
| CoapLostConnection.ContinueLosesConnection | components/coap/src/nabto_coap_server_impl.c:1192-1238 | from an empty server, by chunks, a duplicate and the loss of the connection, to a Continue without one |
| CoapLostConnection.ObserverLosesConnection | components/coap/src/nabto_coap_server_impl.c:1060-1113 | from an empty server, by a request to observe that is accepted after its connection is gone, to a notification without one |
| CoapTable.StoredOk | components/coap/src/nabto_coap_server_impl.c:643-671 | a changed entry, kept or freed, keeps the list without done and freed requests and without dangling pointers |
| CoapTable.AfterDisconnectOk | components/coap/src/nabto_coap_server_impl.c:1192-1238 | so does the loss of a connection |
| CoapTable.AfterDeadlinesOk | components/coap/src/nabto_coap_server_impl.c:170-235 | so do passed deadlines |
| MdnsNames.OwnersAreMatched | components/mdns/src/mdns_server.c:216-397 | every record owner of a response is matched for its labels, through its chain of pointers, and when none of them is empty read as exactly those labels |
| MdnsNames.DataNamesAreMatched | components/mdns/src/mdns_server.c:216-397 | so is every name in the data of a record |
| MdnsNames.WalkIsExact | components/mdns/src/mdns_server.c:116-143 | the announced number of records ends exactly at the end of the packet, if no subtype is empty |
| MdnsNames.SkippingIsExact | components/mdns/src/mdns_server.c:116-143 | every owner is skipped to its end exactly if no subtype is empty |
| MdnsNames.EmptySubtypeStopsTheWalk | components/mdns/src/mdns_server.c:288-307 | the owner of a subtype's record is skipped to its end exactly if that subtype is not empty |
| Mdns.MatchIsPrefix | components/mdns/src/mdns_server.c:66-114 | for a name that reads to its end, matching accepts exactly those lists of labels, none of them empty, that the name starts with but for the case of letters |
| Mdns.WrittenMatches | components/mdns/src/mdns_server.c:66-114 | a written name matches its own labels followed by those of the name it points to |
| Mdns.WrittenReads | components/mdns/src/mdns_server.c:66-114 | a written name without empty labels reads back as the labels it stands for |
| Mdns.SkipIsExact | components/mdns/src/mdns_server.c:116-143 | skipping a written name ends behind it exactly if it has no empty label |
| MdnsCode.MatchLabel | components/mdns/src/mdns_server.c:39-54 | equal length and letters, but for case |
| MdnsCode.MatchName | components/mdns/src/mdns_server.c:66-114 | the loop that follows at most 32 pointers decides the specified match, for any bytes |
| MdnsCode.SkipName | components/mdns/src/mdns_server.c:116-143 | the loop finds the specified end or none, for any bytes |
| MdnsCode.HandlePacket | components/mdns/src/mdns_server.c:145-214 | answers exactly the queries one of whose questions, up to the first cut off one, asks for one of the service's names |
| MdnsCode.CompressionLabel | components/mdns/src/mdns_server.c:404-410 | the pointer to the write position, while there is one |
| MdnsBuild.BuildPacket | components/mdns/src/mdns_server.c:216-397 | fails exactly for too many records, too much text or too little room; otherwise the buffer starts with the response the names lemmas are about |
| MdnsBuild.PutSubtype | components/mdns/src/mdns_server.c:288-307 | the first subtype spells out _sub, the others point to it, and a full buffer does no harm |
| MdnsBuild.PutTxt | components/mdns/src/mdns_server.c:332-368 | the text record, or the failure for text or an item that is too long |

## Left out

- StreamWords.WordsRefineNumbers: does not cover packets half the number space old, for which the comparisons are wrong and which nothing in the stream rejects; the model stores numbers and compares their words, so a stream that also stores words is not modelled as a structure of its own.
- StreamTheorems.WindowIsNewest: does not cover acks that replay protection drops.
- StreamTheorems.WindowPromiseIsKept: while an allocation is pending it does not say when it is retried, because that is up to the application's allocator.
- StreamCode.Stream.CreateAckPacket: takes the room left for data as a parameter; the bytes and the room are those of `StreamWireCode.CreateAckPacket`.
- CoapDownload.AnswerIsNeverTorn: says nothing of the body once an error response has replaced it.
- CoapRetransmit.TransmissionsAreBounded: counts one response's message ids as never coming back, so it does not model the 16 bit wrap of ids within one exchange.
- CoapClientList.RequestList.HandlePacket: tokens are numbers and stamps are not modelled; the requests whose deadlines have passed are a parameter of HandleDeadlines.
- CoapTableCode.Requests.HandleRequestMessage: the route tree is a parameter, the resource the path leads to; so is whether all critical options are understood.
- CoapTableCode.Requests.HandleTimeout: stamps are not modelled; the requests and observers whose deadlines have passed are a parameter.
- CoapTableCode.Requests.HandleSend: whether the packet fits its buffer is a parameter.
- MdnsBuild.BuildPacket: labels of 64 to 255 bytes, which the code writes and readers reject, are not modelled.
- Stream nonces beyond their place in packets, replay protection and the module's packet dump.
- Congestion control: `cwnd` and its limit are arbitrary reals wherever they decide something; only `flightSize` is followed. Round trip times, the retransmission timer and statistics are left out.
- The stream's order of events: any event may happen at any time its state allows, so liveness is not modelled, nor is the claim that the window is never exceeded.
- Latest-notification-wins for observers: an older pending update can replace a newer one; identity, count and matching are proved.
- Observation on the client side.
- CoAP allocation failure, and the parameters parsed from resource paths.
- STUN, the containers and helpers of `components/nn`, logging and string tables.
