# ENet 1.3.18, modelled and verified

The mod's peers talk over a vendored copy of the ENet library. This project models the
parts of it that are hardest to get right, and proves what they promise:

* **The range coder** (`compress.c`). The two directions are written as they run, in place
  on the pool of 4096 symbols: relative links, cumulative counts in binary trees, rescales
  that recurse over a tree, pool resets, and 32-bit registers. Both are proved equal to a
  specification in which a context is a table of 256 counts and nothing is shared or
  linked, so encoder and decoder hold the same model after every byte although they lay
  their symbols out differently. On the specification the round trip is proved for every
  input, and what the coder predicts from: the last two bytes, and what followed them before.
* **The reliable channel** (`peer.c`, `protocol.c`). A state machine of a sender, a receiver
  and a network that loses, duplicates, delays and reorders. Commands carry 16-bit numbers;
  the proofs follow the unbounded numbers those stand for. The methods that run on the
  queues are proved against the functions the state machine is made of; the queues that all
  channels of a peer share are proved to be, seen from each channel, that channel's own.
* **Unreliable and unsequenced delivery**, over whole runs.
* **A channel with both halves**: over every run the application receives reliable and
  unreliable packets in the one order they were sent in, none before the reliable packets
  that were sent before it.
* **Peer states, counters and who is let in**: which events lead into each of the ten states,
  and over every run of events that only an answered request makes a connection, and that the
  application hears of every connection's end once.
* **Bandwidth sharing** (`host.c`), **packet lifetimes**, the **linked list** (`list.c`) and the
  **checksum** (`packet.c`).

## How it is laid out

| files | what is in them |
|---|---|
| `Words`, `Buffers` | the widths of C's unsigned integers; the bytes of several buffers |
| `Interval`, `Contexts`, `RangeCoderSpec`, `RoundTrip` | the coder's specification, and that it round-trips |
| `Prediction`, `ReferenceStream` | what its contexts have counted, in terms of the data alone; one stream to the byte |
| `SymbolPool`, `RangeRegisters`, `RangeCoder`, `Compression` | the coder as it runs, against that specification |
| `ReliableWindows`, `WindowBits` | sequence numbers on the wire and their windows |
| `ReliableReceiver`, `Fragments`, `ReceiverInvariant`, `IncomingChannel` | receiving: functions, reassembly, invariant, methods |
| `ReliableSender`, `OutgoingPeer`, `SendGate`, `OutgoingNumbers`, `PacketThrottle`, `Peer` | sending: one channel, all channels of a peer, what holds a command back, the kinds and numbers of commands, what the throttle drops, methods |
| `ReliableProtocol`, `PeerProtocol` | both ends and the network: every run of a channel, and of a peer with all its channels |
| `UnreliableQueue`, `UnreliableOrder`, `UnreliableDelivery`, `UnreliableArrivals`, `UnreliableDrops`, `UnreliableOrigin`, `UnreliableChannel` | unreliable delivery: functions, one pass, every run, what an arrival achieves, what is dropped, where packets come from, methods |
| `ChannelProtocol`, `EventOrder`, `ChannelOrder` | a channel with its reliable and its unreliable half: every run, what a step adds, and the order of what is dispatched in every run |
| `NetworkAssumptions` | what goes wrong without each assumption |
| `Unsequenced` | unsequenced delivery |
| `Bandwidth`, `BandwidthShares` | bandwidth sharing and its guarantees |
| `PeerStates`, `PeerLife`, `Negotiation` | a host's table of peers, in place; every run of one peer; what two ends settle between them |
| `PacketLifetime`, `LinkedList`, `Checksum` | the rest |

Doc comments carry the meaning of each definition. In a state machine a step is an action
of a datatype, an `Enabled` predicate says when it may happen, and a run is a sequence of
states in which each follows from the one before.

## The assumptions on the network

* A copy of a reliable command may be lost, repeated and delayed at will, but does not
  arrive when its packet starts more than nine windows behind the receiver
  (`ReliableProtocol.DataFresh`). Ten windows late is exactly where an old command starts to
  be taken for a new one (`NetworkAssumptions.StaleTakenExactly`), and
  `NetworkAssumptions.StaleCopyDispatchedAgain` is a run in which one such copy has a packet
  dispatched twice.
* A copy of an acknowledgement does not arrive a whole round of 16 windows behind the newest
  number sent (`ReliableProtocol.AckFresh`). `NetworkAssumptions.StaleAckLosesCommand` is a run
  after which one that does makes the sender forget a command nobody received.
* A command that follows a reliable number does not arrive more than nine windows behind it
  or a round ahead of it (`UnreliableDelivery.Timely`); `NetworkAssumptions.WantedExactly` says
  for every command what it is taken for. Nothing in the sender keeps the second half of this:
  unreliable packets go out while the reliable ones they follow are held back, and with a round
  of those waiting they overtake them all (`NetworkAssumptions.FarAheadOvertakes`). The model lets that number move on by
  up to nine windows at a time; a reliable channel's moves on by at most seven
  (`ReliableProtocol.ReachedMovesOn`).
* A copy of an unsequenced packet is not more than 32 windows behind the receiver's base
  (`Unsequenced.Fresh`). `Unsequenced.StaleQueuedExactly` and `Unsequenced.OnceExactly` say
  for every copy what happens otherwise, and `Unsequenced.StaleCopyQueuedAgain` is a run where
  a copy is queued twice.

## What was found

* The pass over queued unreliable packets drops packets that nothing overtook
  (`fnvmp/enet/peer.c:759-761`). Of the incomplete packets after the last one it dispatches it
  keeps the last two, and beside them the one just queued (`fnvmp/enet/peer.c:289-290`); the
  others go. `UnreliableDrops.StaysExactly` is the exact condition, and
  `UnreliableDrops.ThirdDropsFirst` a run from the start in which the first fragment of a third
  packet costs the first packet. The order of delivery is not affected.
* In the bandwidth passes a capped peer's bandwidth, not its data, is taken off the data that
  is left (`fnvmp/enet/host.c:417`). The total exceeds what the open peers want by exactly what
  the capped ones wanted beyond what they take, and is right if and only if at the first share
  nobody would get more than it can take (`BandwidthShares.TotalLeft`). So the shares stay within the bandwidth, but they never are
  larger than they could be (`BandwidthShares.ShareShrinks`) and can be smaller
  (`BandwidthShares.ShareCanFallShort`).
* The documentation says that at a throttle of 0 all unreliable packets are dropped
  (`fnvmp/enet/peer.c:30-32`). The code drops one when the counter is past the throttle
  (`fnvmp/enet/protocol.c:1524-1527`), so of any 32 packets in a row one more is sent than the
  throttle says: one of 32 at 0, and all of them already at 31 (`PacketThrottle.ThrottleShare`).
* A drop goes on while the next command has the same two numbers
  (`fnvmp/enet/protocol.c:1531-1550`). Unsequenced packets all carry zeros, and channels count
  for themselves, so it can take other packets with it: exactly when the command behind the
  packet has its numbers (`PacketThrottle.OnlyItGoesExactly`, `PacketThrottle.OthersAlikeExactly`).
* The gate for a new reliable window tests ten windows, the mask being two wider than the
  eight free windows its name suggests (`fnvmp/enet/protocol.c:1457-1459`); with the window
  before it also tested to be not all in flight, this is what keeps both ends' windows together.
* The throttle's acceleration is added in 32 bits (`fnvmp/enet/peer.c:71`), so a round trip no
  longer than the last can lower the throttle: exactly when the sum does not fit
  (`Negotiation.ShorterRaisesExactly`, `Negotiation.HugeAccelerationLowers`).

## Model

| member | source | states |
|---|---|---|
| RoundTrip.StreamRoundTrip | fnvmp/enet/compress.c:246-342 | decoding a stream made from any data gives back exactly that data, or a rejection when the output is too small |
| RoundTrip.StreamInjective | fnvmp/enet/compress.c:246-342 | no two inputs have the same stream |
| RoundTrip.ValueRoundTrip | fnvmp/enet/compress.c:286-329 | the decoder finds the byte that was coded, in the context where it was found, and the same interval |
| RoundTrip.LearnAgree | fnvmp/enet/compress.c:598-615 | patching the contexts after decoding makes the model the encoder made while encoding |
| RoundTrip.LowDecodesToEnd | fnvmp/enet/compress.c:576-580 | with the code at the low end, every context escapes and the root tells the end of the data |
| RoundTrip.FlushWindow | fnvmp/enet/compress.c:139-146 | the flushed bytes, followed by zeros, read as the low end |
| RoundTrip.KnownRoundTrip | fnvmp/enet/compress.c:301-304 | a byte the context knows decodes to itself |
| RoundTrip.EscapeRoundTrip | fnvmp/enet/compress.c:307-308 | an escape decodes as an escape |
| RoundTrip.EncodeDecode | fnvmp/enet/compress.c:498-627 | from any healthy model and interval, what is encoded decodes to itself |
| RoundTrip.StopFrame | fnvmp/enet/compress.c:286-291 | where coding a byte stops depends only on contexts no longer than the first |
| Interval.XorTestComparesTopBytes | fnvmp/enet/compress.c:128 | the exclusive-or test, on 32-bit registers that hold the interval, is true exactly when the top bytes of the interval's ends differ |
| Interval.SqueezeKeeps | fnvmp/enet/compress.c:128-131 | cutting the range at the boundary keeps the interval valid and settles its top byte |
| Interval.ShiftKeeps | fnvmp/enet/compress.c:133-135 | emitting a byte keeps the interval within 32 bits |
| Interval.ShiftSteps | fnvmp/enet/compress.c:126-136 | every turn of the normalising loop comes closer to its end |
| Interval.Normalise | fnvmp/enet/compress.c:126-136 | normalising ends with a range of at least 2^16 that stays within 32 bits |
| Interval.Narrow | fnvmp/enet/compress.c:123-125 | narrowing to a slice stays within the interval and is never empty |
| Interval.NarrowStaysInside | fnvmp/enet/compress.c:123-125 | the quotient is at least 1 and the slice's end does not pass the interval's |
| Interval.ReadFindsSlice | fnvmp/enet/compress.c:352 | a code in a slice's interval reads as a count inside that slice |
| Interval.NormaliseHolds | fnvmp/enet/compress.c:126-136 | a later code inside the normalised interval, with the emitted bytes in front, lies in the interval before: no carry reaches emitted bytes |
| Interval.WindowShift | fnvmp/enet/compress.c:365-367 | shifting a byte into the code moves the four-byte window one byte on |
| Contexts.SumSplit | fnvmp/enet/compress.c:159-199 | counts add up over adjoining ranges of values |
| Contexts.SumHalved | fnvmp/enet/compress.c:90-105 | halving rounds up: halved counts sum to at most half the sum and half the number of values |
| Contexts.BumpBalanced | fnvmp/enet/compress.c:305-314 | after any byte the total is escapes plus counts, plus 256 in the root, and nothing overflows 8 or 16 bits |
| Contexts.BumpKnows | fnvmp/enet/compress.c:107-112 | a rescale forgets no value |
| Contexts.BelowMono | fnvmp/enet/compress.c:159-199 | the values' intervals follow one another without overlap |
| Contexts.BelowEnds | fnvmp/enet/compress.c:159-199 | the values' intervals start at 0 and end at the sum of the counts, plus 256 in the root |
| Contexts.Locate | fnvmp/enet/compress.c:373-413 | the value found is the one whose interval holds the code |
| Contexts.LocateUnique | fnvmp/enet/compress.c:373-413 | it is the only one |
| Contexts.FirstRootValue | fnvmp/enet/compress.c:418-438 | in a root that has seen nothing the code is the value |
| Contexts.KnownMeansEscapeCoded | fnvmp/enet/compress.c:307 | a context that knows a value also has room for the escape |
| RangeCoderSpec.LearnKeeps | fnvmp/enet/compress.c:286-329 | learning a byte keeps every context balanced |
| RangeCoderSpec.AdvanceHealthy | fnvmp/enet/compress.c:332-336 | moving on to the next context, with or without a pool reset, keeps the model healthy |
| RangeCoderSpec.InitialHealthy | fnvmp/enet/compress.c:254-265 | the first model is healthy |
| Prediction.PredictsFromLastTwo | fnvmp/enet/compress.c:286-336 | after any part of any data the context of the next byte is the last two bytes since the model last started afresh, and every context has counted exactly what its string of the data was followed by |
| Prediction.CountedExactly | fnvmp/enet/compress.c:286-314 | a context counts each byte that followed its string, once for each time it was new to the longer contexts |
| Prediction.CodedWhereKnown | fnvmp/enet/compress.c:286-304 | a byte is coded in the longest context that it followed before, or in the root |
| Prediction.StreamParts | fnvmp/enet/compress.c:278-336 | the stream is made by coding byte after byte |
| Prediction.FewCounted | fnvmp/enet/compress.c:305-314 | the weights of a context that has counted few bytes: 2 for each time a byte came and 5 to the escape for each new one; 3 in the root, beside 1 for each byte that never came and 1 for the end |
| Prediction.HalvedExactly | fnvmp/enet/compress.c:299-314 | all weights are halved, rounded up, exactly when the byte counted had more than 249 in the root or 251 elsewhere, or the total passes 65280 |
| ReferenceStream.FourBytes | fnvmp/enet/compress.c:246-342 | the stream of four bytes 97 is 62 02 19 99 |
| SymbolPool.NodeSums | fnvmp/enet/compress.c:159-199 | what lies below a node's subtree and the node's cumulative count make the sum up to its value |
| SymbolPool.NodeDecides | fnvmp/enet/compress.c:386-409 | comparing a code with a node's counts decides as the order of values does, and gives the unseen value where a link is missing |
| SymbolPool.WalkDescends | fnvmp/enet/compress.c:173-187 | going down a link leaves every other node settled: counted if the walk has passed it, and not yet otherwise |
| SymbolPool.WalkEndsAtGap | fnvmp/enet/compress.c:177-186 | where a link is missing every node has its new counts and none lies in the gap |
| SymbolPool.NodeHalved | fnvmp/enet/compress.c:96-99 | a halved node is correct for the halved counts, its cumulative count added up anew |
| SymbolPool.GapIsEmpty | fnvmp/enet/compress.c:428-436 | no value known lies in a gap of the tree |
| SymbolPool.NewLeafOk | fnvmp/enet/compress.c:68-80 | a symbol just created is a correct leaf |
| SymbolPool.GrownIsBump | fnvmp/enet/compress.c:305-314 | counting in the tree and then growing the totals is the specification's update |
| RangeRegisters.RangeEncode | fnvmp/enet/compress.c:121-137 | the registers and the bytes put out are those of narrowing and normalising, or the output is full |
| RangeRegisters.RangeFlush | fnvmp/enet/compress.c:139-146 | puts out the low register's bytes up to its last non-zero one |
| RangeRegisters.RangeOutput | fnvmp/enet/compress.c:114-119 | puts out one byte if there is room |
| RangeRegisters.RangeSeed | fnvmp/enet/compress.c:344-350 | the code register starts as the first four bytes, zeros where the input ends |
| RangeRegisters.RangeRead | fnvmp/enet/compress.c:352 | the count read is the specification's |
| RangeRegisters.RangeDecode | fnvmp/enet/compress.c:354-371 | the registers follow the encoder's, and the code stays the window on the input |
| RangeCoderPool.RangeCoder.constructor | fnvmp/enet/compress.c:48-56 | a pool of 4096 symbols |
| RangeCoderPool.RangeCoder.SymbolCreate | fnvmp/enet/compress.c:68-80 | the next slot becomes a leaf and nothing else changes |
| RangeCoderPool.RangeCoder.WalkLeft | fnvmp/enet/compress.c:173-176 | counts a value on the way left |
| RangeCoderPool.RangeCoder.WalkFound | fnvmp/enet/compress.c:188-195 | counts a value at its own node |
| RangeCoderPool.RangeCoder.WalkCreate | fnvmp/enet/compress.c:177-186 | hangs a new value where the walk ended |
| RangeCoderPool.RangeCoder.ContextEncode | fnvmp/enet/compress.c:159-199 | gives a value's cumulative and own count as the specification has them and adds the update to the model |
| RangeCoderPool.RangeCoder.ContextTryDecode | fnvmp/enet/compress.c:415-416 | finds the value whose interval holds the code and adds the update, or fails where no value has it |
| RangeCoderPool.RangeCoder.ContextRootDecode | fnvmp/enet/compress.c:418-438 | for a code within the total, finds the value, seen or not, whose interval holds it and adds the update |
| RangeCoderPool.RangeCoder.SymbolRescale | fnvmp/enet/compress.c:90-105 | halves the counts of a whole tree and returns their new sum |
| RangeCoderPool.RangeCoder.ContextRescale | fnvmp/enet/compress.c:107-112 | makes the context the rescaled one of the specification |
| RangeCoderPool.RangeCoder.ContextGrow | fnvmp/enet/compress.c:312-314 | adds to the total and rescales when the specification does |
| RangeCoderPool.RangeCoder.EncodeContext | fnvmp/enet/compress.c:293-314 | codes a byte or an escape in one subcontext and learns it |
| RangeCoderPool.RangeCoder.EncodeSymbol | fnvmp/enet/compress.c:286-329 | codes and learns a byte, from the longest context to the root |
| RangeCoderPool.RangeCoder.CreateRoot | fnvmp/enet/compress.c:82-88 | the pool holds a fresh root and nothing else |
| RangeCoderPool.RangeCoder.NextContext | fnvmp/enet/compress.c:148-157 | goes on to the next context, that of the last two bytes, or starts again when the pool is nearly full |
| RangeCoderPool.RangeCoder.Compress | fnvmp/enet/compress.c:246-342 | the output is the specification's stream of the buffers' bytes, or 0 is returned because it does not fit |
| RangeCoderPool.RangeCoder.PatchContexts | fnvmp/enet/compress.c:598-615 | the contexts above learn the byte and are linked to it |
| RangeCoderPool.RangeCoder.DecodeSymbol | fnvmp/enet/compress.c:529-593 | decodes a byte, from the longest context to the root, as the specification does, or tells that the code lies past the root's total |
| RangeCoderPool.RangeCoder.Decompress | fnvmp/enet/compress.c:498-627 | for every input that reads no code past the root's total, the output is what the specification reads from it |
| Compression.Carry | fnvmp/enet/compress.c:246-627 | what one coder compressed, another decompresses to the bytes of the buffers |
| ReliableWindows.AheadExact | fnvmp/enet/peer.c:863-871 | from a base less than a round behind, the windows counted ahead are the true distance |
| ReliableWindows.StaleAcceptedExactly | fnvmp/enet/peer.c:863-871 | a number behind the base passes for an acceptable new one exactly when it is ten or more windows behind |
| ReliableWindows.UnacknowledgedExactly | fnvmp/enet/peer.c:612-620 | exactly the numbers seven or eight windows ahead, and their look-alikes behind, are not acknowledged |
| ReliableWindows.WireOrder | fnvmp/enet/peer.c:887-899 | the wrap-aware comparisons of the insert order numbers as their unbounded ones are ordered |
| ReliableWindows.WireInjective | fnvmp/enet/protocol.c:234-236 | within a round the 16 bits determine the number |
| WindowBits.MaskIsShifted | fnvmp/enet/protocol.c:1458-1459 | the shifted mask has ones for ten windows from the number's own on, cyclically |
| WindowBits.TenWindows | fnvmp/enet/protocol.c:1458-1459 | the set of windows that counts as busy is that of those ten windows |
| WindowBits.BusyIsTest | fnvmp/enet/protocol.c:1457-1459 | the source's test of the word of used windows against the shifted mask is true exactly when one of the ten windows is in use |
| WindowBits.SetAndClear | fnvmp/enet/protocol.c:1499 | setting and clearing a window's bit in the word adds the window to the used ones and takes it out |
| Fragments.PiecesPartition | fnvmp/enet/peer.c:150-157 | the fragments are not empty, not too long and adjoin, and the last ends the packet |
| Fragments.PiecesDisjoint | fnvmp/enet/peer.c:150-157 | no two fragments overlap |
| Fragments.PieceOf | fnvmp/enet/peer.c:150-157 | every byte lies in a fragment |
| Fragments.ClearSet | fnvmp/enet/protocol.c:627-631 | setting a clear bit takes exactly one off the clear ones |
| Fragments.ClearNone | fnvmp/enet/protocol.c:640-641 | no bit is clear exactly when all fragments are there |
| Fragments.ClearAll | fnvmp/enet/peer.c:971-986 | a new entry's bits are all clear, one for each fragment |
| Fragments.EntryComplete | fnvmp/enet/protocol.c:640-641 | an entry with nothing remaining holds the packet's bytes |
| Fragments.AddFragmentKeeps | fnvmp/enet/protocol.c:627-642 | a fragment is copied and counted once however often it comes, and the remaining count stays the number of clear bits |
| Fragments.OpenedKeeps | fnvmp/enet/peer.c:959-986 | the entry a first fragment opens is correct |
| ReceiverInvariant.FirstMono | fnvmp/enet/peer.c:636-655 | later packets have later numbers, one for each fragment |
| ReceiverInvariant.OwnerOf | fnvmp/enet/peer.c:636-655 | every number given out belongs to a packet |
| ReceiverInvariant.PlaceFound | fnvmp/enet/peer.c:880-904 | the search finds the packet's entry, or the place that keeps the list in order |
| ReceiverInvariant.DispatchKeeps | fnvmp/enet/peer.c:807-844 | dispatching takes whole packets, the next ones in order, and loses nothing |
| ReceiverInvariant.OldNotAccepted | fnvmp/enet/peer.c:863-871 | a dispatched packet is not taken again |
| ReceiverInvariant.NewJudged | fnvmp/enet/peer.c:863-871 | a packet to come is accepted exactly when it starts less than seven windows ahead |
| ReceiverInvariant.InsertKeeps | fnvmp/enet/peer.c:995 | inserting at the place found keeps the list in order and adds just that command |
| ReceiverInvariant.ReliableKeeps | fnvmp/enet/protocol.c:446-466 | a whole packet's copy, whenever it comes, is stored once or recognised, and changes nothing else |
| ReceiverInvariant.FragmentKeeps | fnvmp/enet/protocol.c:536-645 | a fragment's copy, whenever it comes, is stored once or recognised, and is an error only if its packet is too big or there is no room |
| ReliableReceiver.ReliableRefusedExactly | fnvmp/enet/protocol.c:446-466 | a packet is refused, and nothing stored, exactly if it is over the maximum size, or new without room |
| ReliableReceiver.FragmentRefusedExactly | fnvmp/enet/protocol.c:549-625 | a fragment is refused, and nothing stored, exactly if it is empty or too long or, its number being acceptable, it is absurd, clashes with what is stored or dispatched, or would open an entry without room |
| IncomingChannel.Channel.FindPlace | fnvmp/enet/peer.c:880-904 | the loop from the end of the list finds the place |
| IncomingChannel.Channel.DispatchIncomingReliableCommands | fnvmp/enet/peer.c:807-844 | takes out the commands complete and next in sequence, together |
| IncomingChannel.Channel.QueueIncomingCommand | fnvmp/enet/peer.c:846-1025 | stores a command once, in its place, drops or refuses it otherwise |
| IncomingChannel.Channel.HandleSendReliable | fnvmp/enet/protocol.c:446-466 | does what the receiver's function says |
| IncomingChannel.Channel.HandleSendFragment | fnvmp/enet/protocol.c:536-645 | does what the receiver's function says |
| IncomingChannel.Channel.QueueAcknowledgement | fnvmp/enet/peer.c:604-634 | acknowledges unless the number looks seven or eight windows ahead |
| ReliableSender.Started | fnvmp/enet/protocol.c:364-378 | a new channel satisfies the sender's invariant |
| ReliableSender.EnqueueKeeps | fnvmp/enet/peer.c:652-659 | queueing a command keeps it |
| ReliableSender.ResendKeeps | fnvmp/enet/protocol.c:1495-1519 | sending again keeps it and counts nothing twice |
| ReliableSender.GateClears | fnvmp/enet/protocol.c:1446-1466 | when a new window is entered nothing unacknowledged is left seven windows behind it |
| ReliableSender.FirstSendKeeps | fnvmp/enet/protocol.c:1495-1519 | sending for the first time adds the number to the unacknowledged ones and to its window's counter |
| ReliableSender.FullWindowHoldsBack | fnvmp/enet/protocol.c:1455-1457 | a window all unacknowledged holds the next one back |
| ReliableSender.ExpireKeeps | fnvmp/enet/protocol.c:1384-1395 | timed-out commands go back in front, in order, and leave the data in transit |
| ReliableSender.AcknowledgedIsFound | fnvmp/enet/protocol.c:228-245 | an acknowledgement finds the command it is for, and no other |
| ReliableSender.AcknowledgeKeeps | fnvmp/enet/protocol.c:220-292 | an acknowledgement, repeated or not, takes exactly its number out |
| ReliableSender.UncountKeeps | fnvmp/enet/protocol.c:251-261 | the window counters and the used windows stay those of the unacknowledged numbers |
| ReliableSender.NumbersSelect | fnvmp/enet/protocol.c:1361-1396 | a timeout check splits the sent commands, and their lengths, without loss |
| SendGate.HeldBackExactly | fnvmp/enet/protocol.c:1446-1466 | the first command of a window is held back, the first time, exactly if all 4096 numbers of the window before are counted or one of the ten windows from its own on is in use |
| SendGate.GateExactly | fnvmp/enet/protocol.c:1446-1466 | in terms of what is unacknowledged: exactly if that is all of the window before, or any number of the one seven before |
| SendGate.LimitExactly | fnvmp/enet/protocol.c:1470-1472 | what is in transit and the command fit exactly if together they are at most the mtu, or at most throttle * window / 32 |
| SendGate.SendableExactly | fnvmp/enet/protocol.c:1446-1478 | the first waiting command may go exactly if the gate lets it and it fits |
| SendGate.FirstGoes | fnvmp/enet/protocol.c:1423-1519 | and then it goes, if the datagram has room |
| ReliableProtocol.RunGood | fnvmp/enet/protocol.c:1351-1597 | every state of every run satisfies the joint invariant |
| ReliableProtocol.ReliableDelivery | fnvmp/enet/peer.c:807-1025 | in every run what was dispatched is a prefix of what was sent, each packet once, whole and in order, and only grows |
| ReliableProtocol.WindowsStayTogether | fnvmp/enet/protocol.c:1446-1466 | the newest number is at most seven windows ahead of the receiver's, and all in flight lie in the seven windows that end with it |
| ReliableProtocol.NothingIsLost | fnvmp/enet/peer.c:604-634 | a number is acknowledged only when its data was dispatched or is stored; every other number sent is still with the sender |
| ReliableProtocol.AcceptedIsAcknowledged | fnvmp/enet/protocol.c:1194-1221 | every accepted number less than seven windows ahead is acknowledged, and so is a dispatched one until it is eight windows behind |
| ReliableProtocol.TransitIsAccounted | fnvmp/enet/protocol.c:1468-1478 | of one channel, the data in transit is what its sent commands carry and at most 65536 |
| ReliableProtocol.ReachedMovesOn | fnvmp/enet/peer.c:807-844 | in one step the receiver's number moves on by at most seven windows and never back |
| ReliableProtocol.GateKeepsClose | fnvmp/enet/protocol.c:1446-1466 | the gate and the unacknowledged windows together keep the sender within seven windows |
| ReliableProtocol.DeliverKeeps | fnvmp/enet/protocol.c:1194-1221 | handling and acknowledging a copy keeps the joint invariant |
| ReliableProtocol.TransmitKeeps | fnvmp/enet/protocol.c:1409-1519 | sending keeps the joint invariant |
| ReliableProtocol.SendKeeps | fnvmp/enet/peer.c:106-196 | queueing a packet, or refusing it, keeps the joint invariant |
| ReliableProtocol.DeliverAckKeeps | fnvmp/enet/protocol.c:850-946 | an acknowledgement's copy keeps the joint invariant |
| ReliableProtocol.TimeOutKeeps | fnvmp/enet/protocol.c:1351-1407 | a timeout check keeps the joint invariant |
| ReliableProtocol.LimitBounded | fnvmp/enet/protocol.c:1470-1472 | the bound on data in transit never passes the largest window |
| OutgoingPeer.QueueView | fnvmp/enet/peer.c:636-703 | queueing on one channel is that channel's step, and nothing to the others |
| OutgoingPeer.SendView | fnvmp/enet/protocol.c:1446-1519 | sending the first command is a step its own channel could make, and nothing to the others |
| OutgoingPeer.SendWhileView | fnvmp/enet/protocol.c:1423-1519 | sending as much as fits is, for each channel, a run of its own steps; the data in transit stays in the limit |
| OutgoingPeer.ReturnView | fnvmp/enet/protocol.c:1361-1396 | a timeout check is each channel's own |
| OutgoingPeer.RemoveView | fnvmp/enet/protocol.c:220-292 | an acknowledgement is its channel's own, and nothing to the others |
| OutgoingPeer.FindAgainView | fnvmp/enet/protocol.c:195-218 | ending the search at the first command never sent misses none of the channel's |
| PeerProtocol.StepFollows | fnvmp/enet/protocol.c:1409-1519 | every step of a peer, whose channels share their queues, is for each channel a step of its own or nothing, and keeps the peer's invariant |
| PeerProtocol.ChannelRun | fnvmp/enet/protocol.c:1409-1519 | in every run of a peer each channel makes a run of its own |
| PeerProtocol.PeerTransitIsAccounted | fnvmp/enet/protocol.c:1470-1518 | in every run the peer's data in transit is what the sent commands of all channels carry, and at most 65536 |
| PeerProtocol.EveryChannelDelivers | fnvmp/enet/peer.c:807-1025 | in every run of a peer, on each channel what was dispatched is a prefix of what was sent, and the windows stay together |
| OutgoingNumbers.PiecesAdded | fnvmp/enet/peer.c:676-680 | all fragments of an unreliable packet have one number, the one after the last, and their offsets |
| OutgoingNumbers.OthersRanked | fnvmp/enet/peer.c:651-681 | whatever is sent unacknowledged is numbered after everything before it on its channel, or in a later group, and the count of unreliable packets never wraps |
| OutgoingNumbers.ReliableRanked | fnvmp/enet/peer.c:654-658 | reliable commands start the count again behind a later number, so the order is kept |
| OutgoingNumbers.ChosenExactly | fnvmp/enet/peer.c:126-216 | a packet is acknowledged exactly if that is asked, it must be cut and may not be cut otherwise, or the count is used up and it is not to go unsequenced; it is unsequenced exactly if that is asked, it is not reliable and it fits; its commands are fragments exactly if it was cut |
| OutgoingNumbers.CountsSinceReliable | fnvmp/enet/peer.c:651-681 | over every run of packets, whatever goes on between, the count of a channel is the number of packets numbered on it since the last one sent reliably |
| OutgoingNumbers.PiecesQueued | fnvmp/enet/peer.c:150-193 | a packet that is not acknowledged adds exactly its pieces, of its kind, and another nothing |
| Peer.QueuePiecesView | fnvmp/enet/peer.c:118-196 | a packet's fragments take the channel's next numbers in order |
| Peer.Peer.constructor | fnvmp/enet/protocol.c:364-378 | every channel starts as a new sender, with nothing sent |
| Peer.Peer.SetupOutgoingCommand | fnvmp/enet/peer.c:636-703 | gives a command of any kind its numbers and queues it |
| Peer.Peer.Send | fnvmp/enet/peer.c:106-222 | a packet that is asked or has to be sent reliably adds exactly its pieces to the acknowledged commands and nothing to the others; another, the other way round, of the kind asked for; or the packet is refused, and all numbers stay in the order sent |
| Peer.SentValid | fnvmp/enet/peer.c:106-222 | a packet's commands, of whatever kind, leave the queues and the numbers in order |
| Peer.SentPlainly | fnvmp/enet/peer.c:106-222 | which queue gets which commands, from the flags, the size and the count alone |
| Peer.Peer.Split | fnvmp/enet/peer.c:150-185 | the loop cuts the packet into the pieces of the specification |
| Peer.Peer.CheckOutgoingCommands | fnvmp/enet/protocol.c:1409-1519 | sends the reliable packets' commands in order until the gate, the data in transit or the datagram stops it; with room left it stops only before a command that the gate holds back or that would make more in transit than the mtu and than the throttled window, and a first command that neither stops goes |
| Peer.Peer.ThrottleCommand | fnvmp/enet/protocol.c:1522-1554 | moves the counter on and, if it is past the throttle, drops the commands that have the first one's numbers; numbers and order stay right |
| Peer.Peer.DropCommands | fnvmp/enet/protocol.c:1531-1551 | the loop takes the command and those behind it with the same numbers |
| PacketThrottle.ThrottleShare | fnvmp/enet/protocol.c:1524-1527 | of any 32 packets in a row exactly one more is sent than the throttle says |
| PacketThrottle.NoneDropped | fnvmp/enet/protocol.c:1524-1527 | at a throttle of 31 or more none is dropped |
| PacketThrottle.WholePacketGoes | fnvmp/enet/protocol.c:1531-1550 | a drop takes all of the packet that is still queued |
| PacketThrottle.OnlyItGoesExactly | fnvmp/enet/protocol.c:1531-1550 | a drop takes nothing else exactly when the command behind the packet has other numbers |
| PacketThrottle.OthersAlikeExactly | fnvmp/enet/protocol.c:1546-1548 | commands of different packets have equal numbers exactly when both are unsequenced, or neither is and they have the same count on different channels or rounds apart |
| PacketThrottle.TwoUnsequencedGo | fnvmp/enet/protocol.c:1531-1550 | two unsequenced packets in a row go together |
| PacketThrottle.TwoChannelsGo | fnvmp/enet/protocol.c:1531-1550 | so do the first packets of two channels after as many reliable ones |
| PacketThrottle.PiecesTogether | fnvmp/enet/peer.c:187-193 | a packet's commands, sent together, stand together |
| Peer.Peer.CheckTimeouts | fnvmp/enet/protocol.c:1351-1407 | moves what timed out in front of what waits, in order |
| Peer.Peer.RemoveSentReliableCommand | fnvmp/enet/protocol.c:220-292 | removes the acknowledged command, wherever it is queued |
| Peer.Peer.FindAgainIn | fnvmp/enet/protocol.c:195-218 | the search among the waiting commands |
| UnreliableOrder.Judged | fnvmp/enet/peer.c:768-773 | the pass tells overtaken, due and future packets apart |
| UnreliableOrder.MovedPending | fnvmp/enet/peer.c:746-759 | a run of due packets is moved in order |
| UnreliableOrder.PassKeeps | fnvmp/enet/peer.c:724-805 | the pass dispatches all that is due and complete, in order, and leaves only what is to come |
| UnreliableDelivery.DispatchKeeps | fnvmp/enet/peer.c:724-805 | nothing is dropped but what was overtaken or still lacks fragments in its turn |
| UnreliableDelivery.PlaceRight | fnvmp/enet/peer.c:914-945 | the search finds the packet's entry, or the place that keeps the list in order |
| UnreliableDelivery.WantedMeans | fnvmp/enet/peer.c:861-912 | what is queued is exactly what is to come and less than seven windows ahead |
| UnreliableDelivery.WholeKeeps | fnvmp/enet/protocol.c:514-534 | a whole packet's arrival keeps order and forgets no dispatched one |
| UnreliableDelivery.FragmentKeeps | fnvmp/enet/protocol.c:647-763 | so does a fragment's, and what remains is always the number of fragments not yet there |
| UnreliableArrivals.WholeArrives | fnvmp/enet/protocol.c:514-534 | a whole packet to come that may be held is taken, dispatched if its turn is now and held otherwise; any other changes nothing |
| UnreliableArrivals.FragmentArrives | fnvmp/enet/protocol.c:725-761 | a fragment of a packet in the list: afterwards the packet, there or dispatched, has exactly that fragment more, and it is dispatched exactly if that was the last one missing in its turn |
| UnreliableArrivals.FragmentOpens | fnvmp/enet/protocol.c:725-761 | a fragment of a packet to come that is not in the list opens its entry and is its only fragment |
| UnreliableArrivals.MovesOn | fnvmp/enet/peer.c:807-844 | when the reliable number moves on, what it overtook goes, the complete packets that follow it are dispatched and later ones stay |
| UnreliableDelivery.OpenedStays | fnvmp/enet/peer.c:278-307 | the entry just opened survives the dispatch that follows |
| UnreliableDelivery.LastFragmentDispatches | fnvmp/enet/protocol.c:745-759 | marking a fragment of the packet whose turn it is dispatches exactly when it was the last one missing, and then that packet |
| UnreliableDelivery.UnsequencedAtOnce | fnvmp/enet/peer.c:948-950 | an unsequenced packet never waits behind others |
| UnreliableDelivery.AdvanceKeeps | fnvmp/enet/peer.c:832-843 | the reliable part moving on drops what it overtook and dispatches what it released |
| UnreliableDelivery.OrderedAndOnce | fnvmp/enet/peer.c:724-805 | in every run sequenced unreliable packets are dispatched in strictly increasing order of reliable and unreliable number, none twice, and nothing overtaken waits |
| UnreliableDelivery.DispatchedComplete | fnvmp/enet/protocol.c:745-759 | in every run no packet is dispatched that lacks a fragment |
| UnreliableDrops.PassDrops | fnvmp/enet/peer.c:724-805 | a pass keeps an incomplete packet whose turn it is exactly if no packet after it is dispatched and no two after it are incomplete |
| UnreliableDrops.StaysExactly | fnvmp/enet/peer.c:759-761 | an incomplete packet whose turn it is stays exactly when it is the one just queued, or no packet after it is dispatched and no two after it are incomplete |
| UnreliableDrops.ThirdDropsFirst | fnvmp/enet/peer.c:759-761 | a run from the start in which the first fragment of a third packet drops the first packet, which nothing overtook |
| ChannelOrder.OneOrder | fnvmp/enet/peer.c:724-844 | in every run of a channel whatever is dispatched with a place in the order was sent; two such packets come in the order they were sent in; and before each come all reliable packets sent before it |
| ChannelOrder.ReliablePrefix | fnvmp/enet/peer.c:807-844 | in every run the reliable packets dispatched are, in order, the first of those sent |
| EventOrder.DeliversMore | fnvmp/enet/peer.c:807-844 | whatever a step dispatches, the queue stays in the order of sending and lacks no reliable packet sent before one that is in it |
| EventOrder.ScriptSends | fnvmp/enet/peer.c:654-658 | a reliable packet comes after everything sent before it on its channel |
| EventOrder.ScriptCounts | fnvmp/enet/peer.c:670-676 | so does an unreliable one |
| ChannelProtocol.Halves | fnvmp/enet/peer.c:807-844 | in every run of a channel its reliable and its unreliable half each make a run of their own, and agree on the number reached |
| ChannelOrder.RunGood | fnvmp/enet/peer.c:651-681 | in every run what was sent is in strict order, and the queue of what was dispatched is right |
| UnreliableOrigin.FragmentWithin | fnvmp/enet/protocol.c:647-763 | a fragment's arrival brings no packet into the list or the queue but the one it belongs to |
| NetworkAssumptions.StaleTakenExactly | fnvmp/enet/peer.c:863-904 | a copy of a passed command changes anything exactly when it comes ten or more windows late and finds its place free |
| NetworkAssumptions.StaleCopyDispatchedAgain | fnvmp/enet/peer.c:863-871 | a run in which one copy ten windows late has a packet dispatched twice |
| NetworkAssumptions.StaleAckLosesCommand | fnvmp/enet/protocol.c:228-261 | a run after which one acknowledgement a round late makes the sender forget a command that was not received |
| NetworkAssumptions.WantedExactly | fnvmp/enet/peer.c:861-912 | whatever number an unreliable packet follows, it is queued exactly if the number it looks like is less than seven windows ahead and, if that is reached, its count is new |
| NetworkAssumptions.FarAheadOvertakes | fnvmp/enet/protocol.c:1446-1478 | a run in which an unreliable packet sent after a round of waiting reliable ones would be dispatched before them all |
| UnreliableChannel.Channel.DispatchIncomingUnreliableCommands | fnvmp/enet/peer.c:724-805 | the walk over the list, in place |
| UnreliableChannel.Channel.FindPlace | fnvmp/enet/peer.c:914-945 | the loop from the end of the list finds the place |
| UnreliableChannel.Channel.HandleSendUnreliable | fnvmp/enet/protocol.c:514-534 | queues a packet once, in its place |
| UnreliableChannel.Channel.HandleSendUnsequenced | fnvmp/enet/peer.c:948-995 | queues in front |
| UnreliableChannel.Channel.HandleSendUnreliableFragment | fnvmp/enet/protocol.c:647-763 | marks the fragment, of a packet in the list or just opened, once, and dispatches when the last one came |
| UnreliableChannel.Channel.ReliableDispatched | fnvmp/enet/peer.c:832-843 | starts counting again and dispatches |
| Unsequenced.Peer.HandleSendUnsequenced | fnvmp/enet/protocol.c:468-512 | tests and sets the group's bit, clearing the bitmap when the window moves |
| Unsequenced.ArriveKeeps | fnvmp/enet/protocol.c:485-509 | every group queued in the current window stays marked |
| Unsequenced.AtMostOnce | fnvmp/enet/protocol.c:485-509 | in every run each group is queued at most once |
| Unsequenced.QueuedExactly | fnvmp/enet/protocol.c:485-509 | a copy is queued exactly when it is new, at or less than 32 windows ahead of the base, and there is room |
| Unsequenced.BehindInRange | fnvmp/enet/protocol.c:488-492 | a group behind the base passes the range test exactly when it is more than 32 windows behind |
| Unsequenced.AheadInRange | fnvmp/enet/protocol.c:488-492 | a group ahead passes exactly when it is less than 32 windows ahead |
| Unsequenced.StaleQueuedExactly | fnvmp/enet/protocol.c:485-509 | a copy behind the base by up to one round of windows is queued exactly when it is more than 32 windows behind and, a full round behind, its place is not marked |
| Unsequenced.OnceExactly | fnvmp/enet/protocol.c:485-509 | after any run, a copy of any group leaves every group queued at most once if and only if it is new, not behind the base, looks fresh, or looks like one in the window whose place is marked |
| Unsequenced.StaleCopyQueuedAgain | fnvmp/enet/protocol.c:485-509 | a run in which a copy 33 windows behind is queued a second time |
| Bandwidth.PassCloses | fnvmp/enet/host.c:385-418 | a pass that caps anybody leaves fewer peers open, so the passes end |
| Bandwidth.Quotient | fnvmp/enet/host.c:383 | the share is the division rounded down |
| Bandwidth.Host.TotalData | fnvmp/enet/host.c:362-373 | adds up the connected peers' data, modulo 2^32 |
| Bandwidth.Host.CapPeers | fnvmp/enet/host.c:385-418 | one pass over the table in place |
| Bandwidth.Host.LimitRest | fnvmp/enet/host.c:428-443 | gives every other peer the share that is left |
| Bandwidth.Host.BandwidthThrottle | fnvmp/enet/host.c:338-444 | every peer's new limit, or nothing within a second of the last time |
| BandwidthShares.PassesBounded | fnvmp/enet/host.c:376-419 | there are at most as many passes as connected peers |
| BandwidthShares.CapKeeps | fnvmp/enet/host.c:397-417 | capping one peer underflows nothing, keeps the tally exact and the share affordable |
| BandwidthShares.ShareFits | fnvmp/enet/host.c:380-383 | the share is the whole if all the data fits, and otherwise the largest in 32nds at which it does |
| BandwidthShares.PassKeeps | fnvmp/enet/host.c:385-418 | so does a whole pass |
| BandwidthShares.PassesKeep | fnvmp/enet/host.c:376-419 | and when the passes end nobody left exceeds what it can take |
| BandwidthShares.GrantedBounded | fnvmp/enet/host.c:421-444 | what the limits grant is at most what the capped peers take and the share of the rest |
| BandwidthShares.Shared | fnvmp/enet/host.c:360-444 | the limits together stay within the bandwidth, save those raised to 1; each is the common share if the peer can take that, and else the largest it can take, but at least 1; a throttle within the limit stays |
| BandwidthShares.HostShared | fnvmp/enet/host.c:338-444 | the same for the host's own numbers, when nothing overflows |
| BandwidthShares.TotalLeft | fnvmp/enet/host.c:416-417 | when the passes end the total exceeds what the open peers want by what the capped ones wanted beyond what they take, and is exact if and only if at the first share nobody exceeds what it can take |
| BandwidthShares.CapsNobodyExactly | fnvmp/enet/host.c:376-419 | the passes change anything if and only if somebody exceeds the first share |
| BandwidthShares.ShareRight | fnvmp/enet/host.c:421-444 | if nobody exceeds it, the first share is the last and the right one for the open peers' data |
| BandwidthShares.ShareShrinks | fnvmp/enet/host.c:421-426 | a total that is too large never makes the share larger |
| BandwidthShares.ShareCanFallShort | fnvmp/enet/host.c:338-444 | two peers of a host for which the share is 15 parts of 32 where 28 would be possible |
| PeerStates.Host.OnConnect | fnvmp/enet/peer.c:352-362 | counts a peer not counted before |
| PeerStates.Host.OnDisconnect | fnvmp/enet/peer.c:364-374 | takes a counted peer out of the counters |
| PeerStates.Host.ChangeState | fnvmp/enet/protocol.c:35-44 | sets the state; the counters stay exact |
| PeerStates.Host.Reset | fnvmp/enet/peer.c:381-440 | the peer is as new; the counters stay exact |
| PeerStates.Host.NotifyConnect | fnvmp/enet/protocol.c:119-134 | connected at once, or pending until dispatched |
| PeerStates.Host.NotifyDisconnect | fnvmp/enet/protocol.c:136-159 | reset at once, or a zombie until dispatched |
| PeerStates.Host.Disconnect | fnvmp/enet/peer.c:537-573 | disconnecting if it was connected, reset if it was on the way |
| PeerStates.Host.DisconnectWhenSent | fnvmp/enet/peer.c:591-602 | waits while commands are outgoing |
| PeerStates.Host.DisconnectNow | fnvmp/enet/peer.c:506-530 | reset |
| PeerStates.Host.Connect | fnvmp/enet/host.c:183-263 | the first free peer starts to connect, with a window and mtu in range |
| PeerStates.Host.HandleConnect | fnvmp/enet/protocol.c:294-409 | a request is refused exactly if its channel count is out of range, no peer is free, a peer present came with the same request or the host has its share of peers; otherwise the first free peer takes it, with a window and mtu in range |
| PeerStates.Host.SlotFor | fnvmp/enet/protocol.c:304-332 | the loop over the peers finds the first free one or refuses |
| PeerStates.AdmittedJoin | fnvmp/enet/protocol.c:304-332 | of the peers let in no two came with the same request, and no more from one host than it is allowed |
| PeerStates.AdmittedStay | fnvmp/enet/protocol.c:35-44 | and that stays so whatever becomes of a peer |
| PeerStates.Host.HandleVerifyConnect | fnvmp/enet/protocol.c:948-1008 | an answer to our own request connects, another makes a zombie |
| PeerStates.Host.HandleDisconnect | fnvmp/enet/protocol.c:821-848 | a connection whose end is to be acknowledged waits for that, another becomes a zombie, and one on the way is reset |
| PeerStates.Host.HandleAcknowledge | fnvmp/enet/protocol.c:920-946 | the state changes an acknowledgement brings |
| PeerStates.Host.AcknowledgementSent | fnvmp/enet/protocol.c:1337-1338 | a peer whose disconnect was acknowledged is a zombie |
| PeerStates.Host.UnreliableSent | fnvmp/enet/protocol.c:189-191 | a peer to be disconnected later is when nothing is left to send |
| PeerStates.Host.HandleBandwidthLimit | fnvmp/enet/protocol.c:774-806 | the limit changes hands; the counter of limited peers stays exact and the window in range |
| PeerStates.Host.DispatchIncoming | fnvmp/enet/protocol.c:59-117 | pending becomes connected, a zombie is reset |
| PeerStates.Host.Throttle | fnvmp/enet/peer.c:61-90 | moves the throttle by the round trip and within its limit, and tells which way |
| PeerStates.RangeBoundsTransit | fnvmp/enet/protocol.c:1470-1472 | a peer in range never has more than the largest window in transit |
| PeerStates.CountUpdate | fnvmp/enet/peer.c:352-374 | changing one peer changes the counts by that peer alone |
| PeerLife.ConnectedExactly | fnvmp/enet/protocol.c:119-134 | a peer becomes connected, or waits to be reported so, exactly by an answer to its own request, by the acknowledgement of its answer, or by the dispatch of either |
| PeerLife.LeavingExactly | fnvmp/enet/protocol.c:821-848 | it waits to acknowledge a disconnect exactly if it was connected and the disconnect asks for that; it is disconnecting, or will be later, exactly by the application's wish |
| PeerLife.ZombieExactly | fnvmp/enet/protocol.c:821-848 | the events that make a zombie: among them a disconnect of a connection that asks for no acknowledgement |
| PeerLife.FreedExactly | fnvmp/enet/protocol.c:59-117 | a peer is freed, and then as new, exactly by the dispatch that reports a zombie, at once when the application is there to be told, by the application itself, or if the other end gives up before it was connected |
| PeerLife.StateOnly | fnvmp/enet/protocol.c:821-946 | the other events change nothing else of a peer they do not free |
| PeerLife.RunAccounted | fnvmp/enet/protocol.c:59-159 | in every run the state tells whether a connection was reported that has not ended, and only a peer waiting to acknowledge a disconnect, or a zombie, owes that acknowledgement |
| PeerLife.EveryEndIsTold | fnvmp/enet/protocol.c:59-159 | in every run, after a connection was reported the peer is free, or connected again, only when its end was reported or the application ended it at once |
| PeerLife.NoEndToldTwice | fnvmp/enet/protocol.c:59-159 | in every run an end is reported only of a reported connection or of our own request, and of each once |
| PeerLife.OnlyByHandshake | fnvmp/enet/protocol.c:850-1008 | in every run whoever is connected, about to be or leaving was taken by a request that was answered since, with that request's identity, and was not free in between |
| Negotiation.WindowIsLargest | fnvmp/enet/protocol.c:787-803 | the window is the largest of 4096 to 65536 bytes that both ends' bandwidths afford, at 4096 bytes for each whole 65536, so 65536 without limits |
| Negotiation.WindowsAgreed | fnvmp/enet/protocol.c:387-409 | so it is for who asks, for who is asked, and after the other end's bandwidth changed, which only a connection's can |
| Negotiation.MtuIsLeast | fnvmp/enet/protocol.c:948-1008 | both ends settle on the largest datagrams of 576 to 4096 bytes that neither exceeds, and on a window no larger than either's; an answer that is not to our request changes only the state |
| Negotiation.RequestTaken | fnvmp/enet/protocol.c:340-350 | a peer takes over from a request what the other end asks for |
| Negotiation.ShorterRaisesExactly | fnvmp/enet/peer.c:68-77 | a round trip no longer than the last does not lower the throttle exactly if its sum with the acceleration fits in 32 bits; then it rises by that, as far as its limit |
| Negotiation.HugeAccelerationLowers | fnvmp/enet/peer.c:71 | a throttle that falls because the round trip did not grow |
| Negotiation.LongerLowers | fnvmp/enet/peer.c:61-90 | a longer one never raises it: it falls by the deceleration, to 0 at the least, when the last is exceeded by more than twice the variance, and stays otherwise; with the variance as large as the round trip it goes to its limit |
| PacketLifetime.Host.Send | fnvmp/enet/peer.c:187-193 | one entry and one reference for each fragment |
| PacketLifetime.Host.Shift | fnvmp/enet/protocol.c:1388-1396 | moving an entry changes no count |
| PacketLifetime.Host.Release | fnvmp/enet/protocol.c:265-282 | a packet is destroyed, once, exactly when its last entry goes |
| PacketLifetime.Host.ReleaseRun | fnvmp/enet/protocol.c:1531-1550 | dropping consecutive entries, as the throttle does, destroys exactly the packets no other entry holds |
| PacketLifetime.Host.ResetQueue | fnvmp/enet/peer.c:257-276 | emptying a queue destroys exactly the packets no other queue holds |
| PacketLifetime.Host.Receive | fnvmp/enet/peer.c:229-255 | the packet handed to the application is alive |
| PacketLifetime.Host.Broadcast | fnvmp/enet/host.c:271-288 | a packet sent to nobody is destroyed, another is not |
| PacketLifetime.EntriesUpdate | fnvmp/enet/peer.c:187-193 | changing one queue changes a packet's entries by that queue's alone |
| LinkedList.Insert | fnvmp/enet/list.c:20-32 | inserts before the position in the sequence of nodes |
| LinkedList.Remove | fnvmp/enet/list.c:34-41 | deletes from it |
| LinkedList.Move | fnvmp/enet/list.c:43-59 | cuts a segment and pastes it, in another list or its own |
| LinkedList.Size | fnvmp/enet/list.c:61-73 | the number of nodes without the sentinel |
| LinkedList.Clear | fnvmp/enet/list.c:13-18 | the sentinel alone |
| LinkedList.PastedDistinct | fnvmp/enet/list.c:43-59 | pasting foreign nodes repeats none |
| Checksum.TableRight | fnvmp/enet/packet.c:101-135 | every one of the 256 entries is eight bits of division of its index |
| Checksum.ByteStep | fnvmp/enet/packet.c:147-150 | a step by the table is eight steps by bits |
| Checksum.EightXor | fnvmp/enet/packet.c:147-150 | the division is linear |
| Checksum.Crc32 | fnvmp/enet/packet.c:137-156 | the result is the bit-at-a-time remainder of all the bytes, however they are divided into buffers |

## Left out

- Decompress: a stream no compressor makes can read, in the root, a count past the total; the source then makes some byte of it and goes on. The model stops there and says so, and what the source does from there on, in time, output and slots, is not stated.
- DecodeSymbol: the same count past the total ends the decoding instead of making a byte.
- ContextRootDecode: covers a count within the total only; past it the source makes some byte.
- Compress: buffers of length zero after the first one, from which the source reads a byte that is not there.
- DispatchIncomingReliableCommands: the reset of the unreliable number and the pass over unreliable packets that follow are in the unreliable channel's own model, as its step of moving on; `ChannelProtocol` joins the two.
- QueueIncomingCommand: reliable commands only, those of unreliable ones being in the unreliable channel; whether the peer may hold more data is a parameter; a peer that waits to disconnect drops everything.
- HandleSendReliable: the tests of channel number, peer state and datagram bounds that come first.
- HandleSendFragment: the same tests.
- HandleSendUnreliable: the same tests.
- HandleSendUnsequenced: the same tests; in the unreliable channel, the test of the group, which `Unsequenced` has; in `Unsequenced`, whether the peer may hold more data is a parameter.
- HandleSendUnreliableFragment: the checks of sizes and offsets and the copying of bytes, which are those of reliable fragments and modelled there; an entry only notes which fragments it has.
- HandleFragment: the memory of a new packet is arbitrary, and the set of fragments is a sequence of flags, not the bits of words.
- QueueAcknowledgement: sent times; the acknowledgement itself is an element of a set of all ever sent.
- TransitIsAccounted: one channel; `PeerProtocol.PeerTransitIsAccounted` is the theorem for a peer with all its channels.
- constructor: of a channel set up by a connection, the sending half; the receiving halves are classes of their own.
- SetupOutgoingCommand: commands of no channel (number 0xFF), the queue time and the count of bytes queued.
- Send: whether the peer is connected is a parameter, and fragments cannot fail to be allocated.
- CheckOutgoingCommands: how many commands still fit in the datagram is a parameter; commands without a packet and unreliable ones, which share the loop, are not in these queues, and the order of queue times between the two lists is not modelled.
- ThrottleCommand: commands without a packet, which share the list, are not in it.
- The order of unsequenced packets, which have none; and in the runs of a channel a packet that is sent reliably because 65535 unreliable ones came before it (`OutgoingNumbers.Chosen`) is a reliable packet from the start.
- CheckTimeouts: which commands timed out is a parameter; giving up on a peer is an event in `PeerLife`.
- RemoveSentReliableCommand: the search of the commands without a packet, the packet's release, which `PacketLifetime` has, and the next timeout.
- BandwidthThrottle: the second half, which recalculates what the host tells its peers they may send.
- HostShared: only when no 32-bit product or sum overflows; the program itself is modelled with the overflows.
- OnceExactly: a copy for which there is no room is not queued, and is not a case.
- Disconnect: the disconnect command and the flush.
- DisconnectWhenSent: whether commands are outgoing is a parameter.
- DisconnectNow: the disconnect command and the flush, which can change other peers.
- HandleConnect: session numbers, the channels themselves and the answer that is queued.
- AcknowledgementSent: that the acknowledgement is for a disconnect is given; the queue it waits in is a flag in `PeerLife`.
- OnlyByHandshake: runs of one peer, with the events that concern it; that a datagram is for this peer, by its number, session and address, is not modelled, nor when a peer times out.
- Throttle: the smoothed round trip times it compares with are parameters.
- Release: which command an acknowledgement is for, and the flag that tells the application a packet was sent.
- ReleaseRun: how many entries go is a parameter here; `PacketThrottle.DropEnd` says how many the throttle drops.
- Broadcast: which peers are connected, and in how many fragments each takes the packet, is a parameter.
- Liveness: that everything sent arrives in the end, which needs a network that delivers.
- Round trip times, throttle timing and the choice of what to resend when.
- Context exclusion in the range coder, which the source disables.
- Sockets, clocks, byte order, callbacks and failed allocation.
- The game, the script extender plug-in and the utility code around the library.
