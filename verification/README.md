# ENet's core in Dafny

This project models the networking library ENet as the repository vendors it under `enet/`, and proves what its three hard
parts promise: the adaptive range coder that compresses datagrams, the channel protocol that delivers packets over a network
that loses, repeats and reorders them, and the bandwidth allocator. The smaller parts those rest on (the intrusive list, the
CRC-32, the packet reference counts, the queue of events) are modelled as well.

Each part is written twice: as the plain functions the theorems are about, and as classes and methods that update fields and
arrays the way the source does, whose contracts tie them to those functions.

| part | plain form and theorems | the source's form |
|---|---|---|
| range coder | RangeCoding and Words (intervals and streams), ContextModel (frequency tables), Codec (the round trip), Prediction (what the model knows of a message, told by the message), Sample (one stream worked out) | SymbolTree and PoolInvariant (trees threaded through one array), SymbolPool, Compress, Decompress, Compression |
| reliable channel | Windows, Messages, ReliableChannel, ReliableDelivery, ReliableRuns | Channel |
| unreliable channel | Unreliable, LooseRuns | UnreliableChannel |
| unsequenced packets | Unsequenced | Unsequenced |
| enet_peer_send | Messages, Sending | Sending |
| reliable bookkeeping and the send loop | Ledger, Clock, Datagram, PeerStates | Peer, Host |
| events | Dispatching | Dispatching |
| packet lifetime | Lifetime | Lifetime |
| bandwidth | Bandwidth | Bandwidth |
| list, checksum | List, Crc32, Bitmap | List, Crc32 |

Queues and Bytes hold what several parts share, Words what 32-bit words say of numbers, and Constants the numbers the library
goes by, which are those of enet/include/enet/enet.h, protocol.h and time.h. Where only a relation between such numbers is
needed they are parameters (`Layout`, `Limits`, `Groups`).

The 16-bit sequence numbers are kept as the source keeps them, cut to 16 bits. The theorems speak of the unbounded numbers they
stand for, which no computation uses: field `base` of a waiting command and the ghost fields are such numbers. Time, the data
received and the decisions of the application are inputs, and allocation always succeeds.

## Model

| member | source | states |
|---|---|---|
| `RangeCoding.EmitInInterval` | enet/compress.c:121-146 | however the coding goes on, the code word made of the bytes still to be sent lies in the interval the coder holds: low never carries into bytes already sent |
| `RangeCoding.RenormaliseTurn` | enet/compress.c:126-136 | one turn of the renormalisation loop keeps a non-empty interval below 2^32, also after the truncation `-low & 0xFFFF`, and makes progress, so the loop ends |
| `RangeCoding.QuoteInStep` | enet/compress.c:352-371 | the quotient the decoder reads falls inside the range [under, under + count) that the encoder coded |
| `RangeCoding.EndQuote` | enet/compress.c:139-146 | after the flush every further quotient is 0, so every context escapes: the end of the stream needs no mark |
| `RangeCoding.FlushIsLow` | enet/compress.c:139-146 | the bytes of the flush, padded with zeros, are exactly low |
| `RangeCoding.TopByteComparison` | enet/compress.c:121-137 | on 32-bit words, the comparison `(low ^ (low + range)) >= 2^24` tells whether the top bytes of the two numbers differ |
| `RangeCoding.TruncationMask` | enet/compress.c:121-137 | on 32-bit words, the number of `-low & 0xFFFF` is the truncation the intervals are defined with |
| `Words.WordOf` | enet/compress.c:121-137 | every value low can have is that of a word, so the two identities are about all of them |
| `Compress.RangeEncoder.Encode` | enet/compress.c:121-137 | the 32-bit loop sends the bytes the interval arithmetic sends, and fails exactly when they do not fit the output |
| `Decompress.RangeDecoder.Decode` | enet/compress.c:354-371 | the decoder moves to the interval and the rest of the stream that the encoder moved to |
| `ContextModel.BumpSound` | enet/compress.c:90-112 | the updates of one context (the two deltas, the escapes, a rescale if due, enet/compress.c lines 306-316 and 327-329) keep counts in 8 bits and the total at most 65280, also in the moment before the rescale |
| `Codec.RunBounds` | enet/compress.c:246-342 | after any message counts fit 8 bits, totals stay at most 65280, the next byte creates at most three symbols, and the pool of 4096 has room for them |
| `ContextModel.AdvanceToExit` | enet/compress.c:598-615 | the contexts the decoder patches afterwards end up as the encoder left them, though the two update in different orders |
| `Codec.ByteRoundTrip` | enet/compress.c:529-596 | decoding where the encoder coded a byte gives that byte, leaves from the same context, and ends at the encoder's interval |
| `Codec.EndRoundTrip` | enet/compress.c:570-580 | at the end of the stream the decoder escapes all the way to the root and stops |
| `Codec.RoundTrip` | enet/compress.c:498-627 | the stream of a message (enet/compress.c lines 246-342) decodes to exactly that message, and stops there, if there is room for it, and fails if there is not |
| `Codec.StreamInjective` | enet/compress.c:246-342 | no two messages have the same stream |
| `Codec.StreamNotEmpty` | enet/compress.c:246-342 | a message that is not empty has a stream that is not empty |
| `Prediction.ModelAfter` | enet/compress.c:276-342 | what the model is after any message, told by the places in the message: its history is the last two bytes, or all of fewer, and each context of two bytes, one or none is what it has heard since the model last began anew, which is when the pool has no room for three more symbols; a byte is heard of after the longest run that comes before it, and after a shorter one as long as it had never followed the run a byte longer |
| `Prediction.HeardTimes` | enet/compress.c:25-37 | while nothing is halved, which holds for every message of up to 84 bytes, the count of a value in a context is 2 for each time it has been heard of there, 3 at the root, and what stands for the unheard ones is 5 for each kind of value heard of, 1 at the root |
| `Prediction.StreamIsCoded` | enet/compress.c:276-342 | the stream of any message is that of the steps these counts give: for each byte an escape out of every context that has heard of something but not of the byte, then its range in the first that has heard of it, or at the root, where every value weighs 1 more than its count |
| `Sample.StreamOfAabaab` | enet/compress.c:246-342 | known answer: the stream of 97 97 98 97 97 98 is 97 255 158 160 38 225 180 |
| `SymbolTree.PrefixSums` | enet/compress.c:159-199 | the symbol tree is a cumulative-frequency index: what a descent adds up is the sum of the counts of all smaller values |
| `SymbolTree.WalkPlaces` | enet/compress.c:159-199 | a descent in the array turns the tree into the one with the value counted up, makes a node where there was none, and touches no slot of another tree |
| `SymbolTree.RescaledPlaces` | enet/compress.c:90-105 | a rescale in the array halves every count of the tree, rounding up, keeps every left sum right and touches no other tree |
| `SymbolPool.RangeCoder.ContextEncode` | enet/compress.c:159-199 | the lookup returns the exact prefix sum and count of the value in the table of its context, and counts it up |
| `SymbolPool.RangeCoder.ContextDecode` | enet/compress.c:373-438 | the decoder's descent is the inverse: it finds the value whose range holds the code, for every code below the total, also values the root has not seen |
| `SymbolPool.RangeCoder.RescaleSymbol` | enet/compress.c:90-105 | the recursion over the array computes the halved tree and returns its exact sum |
| `SymbolPool.RangeCoder.Settle` | enet/compress.c:306-316 | escapes, total and rescale in the array are the update of the plain table |
| `SymbolPool.RangeCoder.NextInput` | enet/compress.c:334-341 | the next byte is predicted from the last two, or from nothing after the pool has run out |
| `PoolInvariant.EncodePool` | enet/compress.c:159-199 | a lookup keeps the whole pool in order: every slot has one path, one place in a tree and the parent its path says |
| `Compress.EncodeByte` | enet/compress.c:276-337 | one byte: the steps of the plain model are sent and the pool holds the model after it |
| `Compress.Compress` | enet/compress.c:246-342 | the output is the stream of the concatenated buffers, or 0 exactly when that does not fit or there is no input |
| `Decompress.DecodeContext` | enet/compress.c:529-596 | one context: skipped, escaped, refused or a value found, as on the plain model |
| `Decompress.PatchContexts` | enet/compress.c:598-615 | the skipped contexts learn the value and the chain of parents is rebuilt |
| `Decompress.Decompress` | enet/compress.c:498-627 | the output is what the plain decoder yields |
| `Compression.Carry` | enet/protocol.c:1660-1704 | a datagram goes out compressed exactly if that makes it shorter, and then comes back byte for byte exactly if the receiver has a compressor and room for it (enet/protocol.c lines 1000-1016) |
| `Windows.AcceptedNumbers` | enet/peer.c:804-815 | exactly which 16-bit numbers the window test lets through, in terms of the unbounded numbers they stand for |
| `Windows.AcknowledgedNumbers` | enet/peer.c:556-567 | exactly which numbers are acknowledged, in the same terms |
| `Windows.LaterIsGreater` | enet/peer.c:824-846 | the order the search loops go by is that of the unbounded numbers, across the wrap |
| `Windows.StaleCopyAccepted` | enet/peer.c:804-815 | ten windows later the number of the first packet passes the window test again |
| `ReliableRuns.DispatchedIsPrefix` | enet/peer.c:751-846 | over a network that drops, duplicates and reorders, within the staleness bounds, the packets dispatched are always a prefix of those sent, each once, and the reorder queue stays strictly sorted by forward distance |
| `ReliableRuns.NotBeforeLastPiece` | enet/protocol.c:556-615 | a packet with a fragment no copy of which has come is not dispatched, nor is any after it |
| `ReliableRuns.AllDispatched` | enet/protocol.c:556-615 | once every piece of the first n packets has come near enough to be taken, all n are dispatched |
| `ReliableRuns.AcknowledgedIsKept` | enet/protocol.c:1135-1160 | a copy, whole or fragment, that is not kept is acknowledged exactly if its own number is more than the free windows ahead; up to there an acknowledgement means it is queued or delivered |
| `ReliableRuns.DroppedButAcknowledged` | enet/protocol.c:1135-1160 | a packet nine windows ahead is dropped and acknowledged |
| `ReliableRuns.QueuedAgain` | enet/peer.c:804-846 | a copy, up to a lap old, of a whole packet dispatched before is queued as a new packet exactly if it is more than nine windows stale and its number is not in the queue; otherwise it changes nothing |
| `ReliableRuns.DispatchedAgain` | enet/peer.c:751-788 | such a copy whose number is the next one due is dispatched a second time at once |
| `ReliableRuns.DeliveredTwice` | enet/peer.c:751-788 | one is: after 0x10FFF packets of nothing a late copy of packet 0xFFF |
| `ReliableDelivery.DeliverHolds` | enet/protocol.c:509-618 | one arrival keeps everything in order, loses nothing, gains nothing but its own piece, and keeps that if it is near |
| `ReliableDelivery.EntryComplete` | enet/protocol.c:600-615 | a command none of whose fragments is missing has the packet's bytes |
| `ReliableDelivery.MarkedEntry` | enet/protocol.c:600-615 | storing a fragment sets its bit, leaves the other bytes alone, and keeps the count equal to the number of clear bits |
| `Channel.IncomingChannel.DispatchReliable` | enet/peer.c:751-788 | the loop over the queue is the recursive dispatch the theorems are about |
| `Channel.IncomingChannel.QueueReliable` | enet/peer.c:791-957 | queueing with both window tests and the search from the back of the queue |
| `Channel.IncomingChannel.HandleSendFragment` | enet/protocol.c:509-618 | reassembly in place, as the function the theorems are about |
| `Messages.PiecesTile` | enet/peer.c:111-189 | every byte of a packet lies in exactly one of its fragments |
| `Sending.Sender.Send` | enet/peer.c:99-214 | a packet is refused exactly if the peer is not connected, it is too long or it would have too many fragments; one flagged reliable always goes out reliably; one over the fragment length goes out once exactly if it is flagged for unreliable fragments, not reliable, and the unreliable numbers are not used up; a shorter one goes out unsequenced if so flagged, and otherwise in sequence unless these are used up; every command queued is a piece of a packet sent and none is missing |
| `Sending.CommandOrigin` | enet/peer.c:583-604 | the k-th reliable command of a channel is a piece of a packet sent and has number k + 1 |
| `Sending.Sender.CutUp` | enet/peer.c:126-176 | the loop cuts a packet into the fragments the receiver expects, the last one taking what is left |
| `Sending.PieceFits` | enet/peer.c:111-113 | a piece, its command, the header and the checksum fit the mtu, and every fragment but the last fills it |
| `LooseRuns.DispatchedIsSubsequence` | enet/peer.c:668-749 | the sequenced unreliable packets that come out of a channel are a subsequence of those sent, each with the bytes it was sent with, over every run of copies and moves within the bounds |
| `LooseRuns.CurrentComesOut` | enet/peer.c:668-749 | a whole packet for the current reliable number that has not been overtaken comes out at once |
| `LooseRuns.LaterWaits` | enet/peer.c:849-889 | and one for a later reliable number waits |
| `Unreliable.AdvanceDelivers` | enet/peer.c:771-788 | when the reliable number moves on, the packets that waited for that number come out and those for later ones wait on |
| `LooseRuns.UnsequencedComesOut` | enet/peer.c:891-905 | an unsequenced packet that is let through comes out at once |
| `LooseRuns.PiecesComeOut` | enet/protocol.c:620-740 | over every run of copies in which no packet it comes before on its reliable number has its turn: once every fragment of a packet for the current number has come, in whatever order and however often, the packet is out with its bytes |
| `Unreliable.FragmentGained` | enet/protocol.c:722-737 | a fragment that has not come before, of a packet whose command waits: the command gains its bit and its bytes, every other bit and byte staying as it was, and waits on or, if it is then complete and for the current number, comes out |
| `LooseRuns.FirstFragmentStays` | enet/protocol.c:711-720 | the command made for the first fragment to come survives its own dispatch pass exactly unless two incomplete commands of the current number already wait behind it |
| `LooseRuns.ThirdIsLost` | enet/protocol.c:711-720 | with two packets in pieces, the first fragment of an earlier third is lost |
| `LooseRuns.FragmentCame` | enet/protocol.c:620-740 | a stored fragment goes into the command of its own packet, and the command's count and bytes stay right |
| `Unreliable.PassSteady` | enet/peer.c:668-749 | after a pass the queue holds nothing unsequenced, nothing for a number gone by and nothing overtaken; what has come out is complete and in order |
| `Unreliable.ArriveSteady` | enet/peer.c:849-889 | an arrival keeps that, wherever its number puts it in the queue |
| `Unreliable.AdvanceSteady` | enet/peer.c:771-788 | so does a move of the reliable number that leaves the oldest command waiting no further behind than tells old from new |
| `Unreliable.AdvanceLeaves` | enet/peer.c:707-716 | a move, by up to a lap from the oldest command, leaves something stale waiting exactly if that command ends up more than nine windows behind |
| `Unreliable.StaleKept` | enet/peer.c:707-716 | a move of ten windows leaves a stale packet waiting |
| `UnreliableChannel.LooseChannel.DispatchUnreliable` | enet/peer.c:668-749 | the one walk with its three list positions, moving runs to the dispatched list, computes the pass |
| `UnreliableChannel.LooseChannel.QueueUnreliable` | enet/peer.c:849-957 | queueing with the search from the back of the queue |
| `UnreliableChannel.LooseChannel.HandleSendUnreliableFragment` | enet/protocol.c:620-740 | reassembly in place, as the function the theorems are about |
| `Unsequenced.TakeTracks` | enet/protocol.c:448-476 | among copies within the bounds, exactly the groups in or ahead of the window that have not been let through before are let through, and the window goes on telling which have |
| `Unsequenced.LetThrough` | enet/protocol.c:448-476 | for every copy, however stale: it is let through exactly if the group its 16 bits are taken for is near enough and has not been let through |
| `Unsequenced.AtMostOnce` | enet/protocol.c:448-476 | over every run of copies within the bounds no group is let through twice and the window only moves forward |
| `Unsequenced.LetThroughAgain` | enet/protocol.c:448-476 | a group already let through is let through again exactly if it lies behind the window, the group its number is taken for, which up to a lap back is the one 2^16 later, is near enough, and that one has not been let through |
| `Unsequenced.StaleGroupTwice` | enet/protocol.c:448-476 | a copy 33 windows stale is let through a second time |
| `Unsequenced.UnsequencedWindow.HandleSendUnsequenced` | enet/protocol.c:448-476 | the bitmap and the wrap-around arithmetic in place compute that decision |
| `Ledger.AcknowledgeFinds` | enet/protocol.c:174-214 | the search that gives up at the first command never sent misses nothing: if a command of that name is in flight or awaits retransmission, one of that name is taken out and its code returned, and otherwise nothing changes |
| `Ledger.AcknowledgeBalanced` | enet/protocol.c:216-250 | an acknowledgement keeps data in transit, window counts and bits, and the next timeout in balance |
| `Ledger.SendBalanced` | enet/protocol.c:1505-1545 | so does sending a command |
| `Ledger.RetryBalanced` | enet/protocol.c:1411-1425 | and so does putting a command back that timed out, which keeps the retried commands first |
| `Peer.Peer.RemoveSentReliable` | enet/protocol.c:174-253 | the two searches and the removal in place |
| `Peer.Peer.CheckTimeouts` | enet/protocol.c:1383-1433 | the loop gives the peer up exactly if a command is overdue beyond patience, and otherwise moves every command whose time is up, in order, to the front of the queue |
| `Ledger.GivenUpExactly` | enet/protocol.c:1394-1409 | in moments, not in words: a peer is given up exactly if some late command finds that since the oldest of the late ones up to it, or of the moment waited since, the maximum has passed, or the minimum while its own timeout has reached its limit |
| `Ledger.WaitedSince` | enet/protocol.c:1400-1402 | if it is not, it is waited for from then on since the oldest of these moments |
| `Ledger.KeptTillMaximum` | enet/protocol.c:1404-1409 | nobody is given up before the maximum as long as no timeout has reached its limit |
| `Ledger.GivenUpAtMaximum` | enet/protocol.c:1404-1409 | and a late command from the maximum on always gives the peer up |
| `Ledger.LimitReached` | enet/protocol.c:1411-1419 | each retransmission doubles the timeout, so with the limit of 32 first timeouts (enet/protocol.c line 1516) a command is at its limit from the fifth on |
| `Ledger.SentAtZero` | enet/protocol.c:1400-1409 | except a command sent at service time 0, which never gives the peer up |
| `Peer.Peer.SendReliableOutgoing` | enet/protocol.c:1436-1557 | what goes out is a subsequence of the queue, stamped and in the datagram in that order; what stays keeps its order; data in transit grows by what goes out and not past the window. A command is left behind only if it or one before it may not open its window, or its data or those of one before it would go past the maximum in transit, or the datagram has no room; so everything goes if no command opens a window, all the data is within the maximum and all of it fits the datagram |
| `Peer.Peer.Wraps` | enet/protocol.c:1455-1468 | a command waits to open its window exactly if it is sent for the first time, is the first of the window, and the window before is full, or one of the eight from its own on, short of the wrap, is in use, or the last mask meets one that is |
| `Peer.Peer.SendAcknowledgements` | enet/protocol.c:1233-1279 | acknowledgements leave from the front of the list until none is left or the datagram has no room for one |
| `Peer.Peer.SendUnreliableOutgoing` | enet/protocol.c:1282-1380 | each unreliable command is sent once or dropped; which, and where the throttle counter ends, is what the throttle makes of the whole queue, however much of it finds room this time; the datagram holds what was sent, and something stays only if the first of it finds no room |
| `Peer.ThrottleLetsThrough` | enet/protocol.c:1311-1316 | of 32 packets in a row, each of one command and no two neighbours with the same numbers, the throttle lets through exactly one more than it stands at, all 32 from 31 on, wherever its counter is |
| `Peer.TakesAlong` | enet/protocol.c:1320-1339 | a packet the throttle drops takes the next one along exactly if that has the same two numbers |
| `Peer.UnsequencedGoTogether` | enet/protocol.c:1320-1339 | so one unsequenced packet takes all that follow it along, though the next would have been sent |
| `Peer.Peer.Reset` | enet/peer.c:346-396 | a reset leaves everything in balance with nothing in transit |
| `Peer.Peer.ResetQueues` | enet/peer.c:303-338 | a reset of the queues leaves reliableDataInTransit as it was: that much stays counted for good |
| `Peer.Peer.Turn` | enet/protocol.c:1570-1606 | one peer's turn assembles a datagram no larger than the mtu and equal to its buffers; it asks for another pass only if it has used up something that will not come back at this time, and if it asks for none the peer has nothing left that it could send: no acknowledgement, no unreliable command, and reliable ones only that wait for a window or for data in flight; no command in flight is late, and a ping that is due is in flight |
| `Host.SendOutgoing` | enet/protocol.c:1560-1716 | the loop over continueSending ends, whatever is queued, as long as each command fits an empty datagram, and not before every peer in use has nothing left that it could send now; the DISCONNECT of a peer that was to be disconnected after its last command waits for the next call |
| `Sending.Sender.Unit` | enet/peer.c:111-113 | a fragment has at least one byte |
| `Dispatching.ReceivedInside` | enet/protocol.c:35-148 | in every log that the host can make, a packet is reported only between the report that its connection is made and its end |
| `Dispatching.ConnectedOnce` | enet/protocol.c:35-148 | and between two reports of a connection of the same peer lies the end of the first |
| `Dispatching.EventHost.DispatchIncoming` | enet/protocol.c:35-93 | the event is the first there is to make, from the front of the queue on: a connection, the oldest packet or a disconnection; there is none only if nothing waits, and needsDispatch goes on telling which peers are on the queue, each once |
| `Dispatching.FirstReported` | enet/protocol.c:35-93 | the report is about the first peer on the queue that has one to make: its connection, its end, or its oldest packet, with which it goes to the back if more are left; those before it are taken off |
| `Dispatching.EventHost.NotifyConnect` | enet/protocol.c:108-123 | a connection is reported at once or queued to be |
| `Dispatching.EventHost.NotifyDisconnect` | enet/protocol.c:125-148 | a disconnection is reported, queued to be, or the peer just reset |
| `Dispatching.EventHost.HandleDisconnect` | enet/protocol.c:780-806 | what a DISCONNECT does to the state, the queues and the dispatch queue, and the acknowledgement it leaves (enet/protocol.c lines 1135-1160) |
| `Dispatching.DisconnectEnds` | enet/protocol.c:795-806 | a connection that has been made ends with a DISCONNECT in one of two ways: the peer is a zombie on the dispatch queue, or it is to acknowledge and owes the acknowledgement that makes it one; the second exactly if the connection was in use and an acknowledgement was asked for |
| `Dispatching.EventHost.Dispatch` | enet/peer.c:775-784 | a dispatch pass puts the peer on the queue unless it is there |
| `Dispatching.EventHost.ResetQueues` | enet/peer.c:303-338 | a reset takes the peer off the queue |
| `Dispatching.EventHost.Disconnect` | enet/peer.c:498-528 | the four ways enet_peer_disconnect goes |
| `Dispatching.LeftOver` | enet/protocol.c:1043-1161 | a datagram leaves a peer free exactly if it was free or holds a DISCONNECT and the connection had not been made; the free peer then has an acknowledgement left to send exactly if a command asks for one that no DISCONNECT follows, or one was left before and nothing has cleared it |
| `Dispatching.EventHost.HandleCommands` | enet/protocol.c:1043-1161 | the loop over a datagram of DISCONNECTs and commands whose handlers leave the state alone (enet/protocol.c lines 742-778) does that to the peer |
| `Dispatching.FreePeerOwes` | enet/protocol.c:780-806 | a peer that was acknowledging a connection is such a one, by the DISCONNECT itself or by a PING behind it |
| `Dispatching.EventHost.AcknowledgeDisconnect` | enet/protocol.c:1233-1279 | sending that acknowledgement ends the connection the peer has by then |
| `Lifetime.Store.Drop` | enet/peer.c:269-294 | removing a command keeps every count equal to the number of commands that hold the packet, and destroys the packet exactly with its last holder |
| `Lifetime.Store.RemoveCommands` | enet/peer.c:248-294 | removing many destroys exactly the packets that had a holder and have none any more |
| `Lifetime.Store.Destroy` | enet/packet.c:55-67 | a packet is destroyed once, while it exists and nothing holds it |
| `Lifetime.Store.Receive` | enet/peer.c:222-245 | a received packet is handed over, not destroyed |
| `Lifetime.Store.QueueIncoming` | enet/peer.c:924-957 | a packet just created is queued or, if it is refused, destroyed |
| `Lifetime.Store.Send` | enet/peer.c:178-187 | sending counts each of the commands |
| `Lifetime.Store.Broadcast` | enet/host.c:260-276 | a broadcast packet that no peer took is destroyed |
| `Lifetime.ReleasedOn` | enet/peer.c:248-294 | what two removals destroy together is what one removal of both would |
| `Bandwidth.Allocator.ShareOutgoing` | enet/host.c:344-422 | the loops, in 32 bits, end, and do to the peers what the plain rounds do, or divide by 0 exactly where these do |
| `Bandwidth.PeersHeld` | enet/host.c:366-422 | for all peers, times and limits: a peer that declared a limit is granted no more than it takes exactly if it is not raised to the least limit and its share fits 32 bits; one with less than 2^27 bytes of data, and not 32 times as much as it takes and a unit, always is |
| `Bandwidth.SharedWithin` | enet/host.c:344-422 | while the data of all peers together fits 32 bits, there is a division by 0 exactly if peers are connected, none has data, the host declared a limit and its product with the time, cut to 32 bits, is below 1000; otherwise the grants together stay within the bandwidth, leaving out the raised peers |
| `Bandwidth.SettleCovered` | enet/host.c:386-405 | settling a peer takes no more bandwidth and data than there is, leaves data, and keeps what is left covering the open peers |
| `Bandwidth.SettledHeld` | enet/host.c:390-399 | settling a peer holds it within what it takes exactly if its data is less than 32 times that and a unit, and with the largest limit that does, unless a product is cut to 32 bits |
| `Bandwidth.OpenThrottle` | enet/host.c:366-373 | the peers left open get the largest throttle for which the bandwidth that the settled peers leave covers the data that they leave, unless the product is cut to 32 bits |
| `Bandwidth.SettledDataCounts` | enet/host.c:404-405 | a settled peer leaves the data beyond what it takes: an open peer with 100 bytes gets a throttle of 15 where the bandwidth left would cover one of 28 |
| `Bandwidth.RaisedAboveOwn` | enet/host.c:390-396 | a peer that takes one byte is granted two |
| `Bandwidth.ConcealedAboveOwn` | enet/host.c:386-388 | a peer that takes 1000 bytes is granted 2^27: its share is 0 in 32 bits |
| `Bandwidth.GrantsWithin` | enet/host.c:409-422 | the grants sum to at most the bandwidth, leaving out the peers raised to the least limit |
| `Bandwidth.FirstDivisor` | enet/host.c:361-374 | whatever the data, the first division is by 0 exactly if peers are connected, the sum of their data is 0 in 32 bits, the host declared a limit and the product of that and the time, cut to 32 bits, is below 1000 |
| `Bandwidth.NeverZero` | enet/host.c:361-374 | at the times the source lets through, a product that fits 32 bits leaves no division by 0 |
| `Bandwidth.DividesByZero` | enet/host.c:361-374 | a host of 4294968 bytes a second with a peer and nothing to send divides by 0 |
| `Bandwidth.LaterDivisionByZero` | enet/host.c:366-406 | with 2^32 + 5 bytes of data the division of the second round can be by 0 |
| `Bandwidth.SumWraps` | enet/host.c:344-353 | and with 2^32 + 2 a host of 5 bytes a second grants all of them |
| `Bandwidth.Allocator.LimitIncoming` | enet/host.c:424-466 | what the peers are told to send stays together within the host's limit, and each is told an even part or what it would send anyway; if some are told the even part, one byte more for each of them would exceed the limit |
| `List.InsertNode` | enet/list.c:20-32 | inserting a node inserts it in the sequence, next and previous staying inverse all around |
| `List.RemoveNode` | enet/list.c:34-41 | removing a node removes it from the sequence |
| `List.MoveBetween` | enet/list.c:43-59 | moving a range cuts it out of one list and splices it into another |
| `List.MoveWithin` | enet/list.c:43-59 | or into the same list at a place outside the range |
| `List.Size` | enet/list.c:61-73 | the loop counts the nodes |
| `Crc32.Checksum.EnetCrc32` | enet/packet.c:141-162 | the table-driven checksum of any list of buffers is the bit-serial CRC-32 of their bytes together (section 8.1.1.6.2 of ITU-T V.42) |
| `Crc32.Checksum.InitializeCrc32` | enet/packet.c:117-139 | each table entry is the bit-serial division of its index |
| `Crc32.ReflectCrc` | enet/packet.c:103-115 | the loop mirrors a byte or a word |
| `Crc32.MirroredStep` | enet/packet.c:127-133 | dividing from the top bit is the mirror image of shifting out the lowest bit |
| `Crc32.OneBitDetected` | enet/packet.c:141-162 | a datagram with any one bit changed has another checksum |
| `Clock.LessIsEarlier` | enet/include/enet/time.h:8-15 | times less than a day apart compare as the moments they stand for, across the 32-bit wrap |

## What the code does not keep

Twelve properties one would expect fail in the code. Each has a concrete input and the condition under which it holds.

- A reliable packet is delivered once: not if a copy arrives ten windows late (`Windows.StaleCopyAccepted`). A copy of a whole
  packet already dispatched, up to a lap old, is taken for a new one exactly if it is more than `windows - free + 1`, that is
  nine, windows stale and its number is not in the queue (`ReliableRuns.QueuedAgain`); if it is the next one due it comes out
  again at once (`ReliableRuns.DispatchedAgain`, `ReliableRuns.DeliveredTwice`). Nine windows are the bound the delivery
  theorems put on the network.
- An acknowledged packet is queued or delivered: not if it is nine windows ahead (`ReliableRuns.DroppedButAcknowledged`). A copy
  that is not kept is acknowledged exactly if its own number is more than the eight free windows ahead
  (`ReliableRuns.AcknowledgedIsKept`); for a fragment that is its own number, though it is kept or not by that of its first
  fragment.
- Nothing stale waits in the unreliable queue: it can when the reliable number moves on by ten windows at once
  (`Unreliable.StaleKept`), and, for moves of up to a lap, does exactly if the oldest command waiting ends up more than nine
  windows behind (`Unreliable.AdvanceLeaves`).
- The command made for the first fragment of an unreliable packet is there when its bytes are stored: not if two incomplete
  commands of the current reliable number wait behind it, in which case its own dispatch pass has removed it, and only then
  (`LooseRuns.FirstFragmentStays`, `LooseRuns.ThirdIsLost`). The source goes on to store the fragment all the same, at
  enet/protocol.c line 722; the model stores nothing.
- An unsequenced packet is delivered at most once: not if a copy is 33 windows stale (`Unsequenced.StaleGroupTwice`). A group
  let through before is let through again exactly if it lies behind the window, the group its number is now taken for lies less
  than 32 windows ahead, and that one has not been let through (`Unsequenced.LetThroughAgain`). No run within the bounds of
  `Unsequenced.AtMostOnce` does so.
- An unreliable packet is dropped by the throttle on its own account: one that is dropped takes the packet queued behind it
  along exactly if that has the same reliable and unreliable number (`Peer.TakesAlong`). All unsequenced packets have 0 and 0
  (`Peer.UnsequencedGoTogether`); packets of two channels may.
- A command that is late for long enough gives the peer up: not one sent when the service time is 0
  (`Ledger.SentAtZero`), for 0 stands for no time. All others do (`Ledger.GivenUpExactly`, `Ledger.GivenUpAtMaximum`).
- The throttle of the peers left open is the largest that the bandwidth left allows for their data: it need not be once a peer
  has been settled (`Bandwidth.SettledDataCounts`). It is the largest for their data together with what the settled peers have
  beyond what they take (`Bandwidth.OpenThrottle`), which with nobody settled is their data.
- A peer is granted no more than it takes: not if it is raised to the least limit (`Bandwidth.RaisedAboveOwn`) or its share does
  not fit 32 bits (`Bandwidth.ConcealedAboveOwn`), and only then (`Bandwidth.PeersHeld`). A settled peer is held exactly if its
  data is less than 32 times what it takes and a unit (`Bandwidth.SettledHeld`).
- The grants together stay within the host's bandwidth: not with 2^32 + 2 bytes of data (`Bandwidth.SumWraps`). They do, leaving
  out the raised peers, while the data fits 32 bits (`Bandwidth.SharedWithin`).
- No division by 0 in the allocator: there is one for a host of 4294968 bytes a second that has nothing to send
  (`Bandwidth.DividesByZero`). While the data of all peers together fits 32 bits there is one exactly if peers are connected,
  none has data, the host declared a limit and the product of limit and time, cut to 32 bits, is below 1000
  (`Bandwidth.SharedWithin`). With more data the first division is by 0 exactly if the sum is 0 in 32 bits and the rest of that
  holds (`Bandwidth.FirstDivisor`), and a later one can be (`Bandwidth.LaterDivisionByZero`).
- A peer free for a new connection owes no acknowledgement to the last: a datagram that finds the connection not yet made and
  holds a DISCONNECT leaves one with the free peer exactly if the last DISCONNECT or a command after it asks for one
  (`Dispatching.LeftOver`, `Dispatching.FreePeerOwes`). If it is that of the DISCONNECT, sending it during the next connection
  ends that one (`Dispatching.EventHost.AcknowledgeDisconnect`).

Beside these, a reset of the queues leaves reliableDataInTransit counting what it has thrown away (`Peer.Peer.ResetQueues`); the
balance is therefore kept up to that amount, which is 0 until the first such reset after enet_peer_reset.

## Left out

- Sockets, address resolution, clocks, platform code and allocation: time is an input, allocation succeeds.
- The context exclusion code of enet/compress.c, which is compiled out.
- Decompress.Decompress: on input that no compress wrote and that makes the root's quotient run past its total the source goes
  on with a value cut to 8 bits; the model reports offModel and promises nothing about the output.
- Compress.Compress: the source reads past the end of an empty buffer after the first, so the model requires that there is none.
- The bytes of a packet just created for fragments are not initialised in the source; the model takes them as 0. No packet
  comes out with one of them left.
- Peer.Peer.Wraps: the second mask of the test (enet/protocol.c line 1462) is shifted by more than its width, which C leaves
  undefined; wrapMasks has whatever masks that comes to, and what is proved holds for any.
- Overlapping numbers from an ill-formed sender: the delivery theorems are about copies of commands as enet_peer_send numbers
  them.
- LooseRuns.PiecesComeOut: it is about a packet whose fragments come before any of a later packet of the same reliable number.
  After that a pass keeps at most the last two incomplete commands of the number (`LooseRuns.FirstFragmentStays`), and none
  that a complete one has overtaken; which packets then still come out is not stated.
- Unsequenced packets are let through by `Unsequenced` and queued by `Unreliable`; the two are not put together in one run.
- The receiving side's reliable and unreliable queues are separate objects; that a reliable dispatch calls the unreliable pass
  is `Unreliable.Advance`.
- Peer.dfy keeps the sending half of a peer and Dispatching.dfy what the events depend on. The two overlap in the state of the
  connection and are not one object.
- Round-trip times, the throttle that follows them, packet loss figures and the values of events other than the order they come
  in. The timeout of a first transmission is an input to the ledger.
- reliableWindows, send attempts and reliableDataInTransit are unbounded numbers here; the source has 16 and 32 bits.
- Bandwidth.SharedWithin: with 2^32 bytes of data or more, which later division is by 0 and how far the grants exceed the
  bandwidth is shown by example only; the rounds themselves are modelled for all data.
- UnreliableChannel.LooseChannel.HandleSendUnreliableFragment: where the source stores through a command that its own pass has
  freed, the model stores nothing.
- Dispatching.EventHost.HandleCommands: only the commands whose handlers leave the state alone beside DISCONNECT; a CONNECT, an
  acknowledgement, a VERIFY_CONNECT or a packet in the same datagram is not part of it.
- Compression and the checksum inside the send loop: the datagram's size is counted before them, and `Compression.Carry` takes
  the buffers as they are.
- The handlers for pings, bandwidth limits and throttle settings, the peer search by address and the session numbers.
- enet_list_move to a place inside the range it moves, which the source never asks for.
