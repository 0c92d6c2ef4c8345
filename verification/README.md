# Verification of the BadVPN client

This project models the protocol cores of the BadVPN client (`v2ray/v2rayNG/badvpn`) in
Dafny, and proves properties of them. The client is single-threaded and driven by events,
so each object of it is a class here, each handler a method, and what holds between events
is the class's `Valid()`. Where a class is a fast form of something simple, it is proved
against that simple form, a function on values, and the theorems are about the function.

`dafny verify dfyconfig.toml` checks everything.

| files | what they model |
|---|---|
| `Bytes`, `Lists`, `Recency` | bytes and little-endian numbers, lists with removal, bounded lists in order of use |
| `FragmentProto` | the chunk format of FragmentProto packets |
| `AssemblerSpec`, `Assembler` | rebuilding frames: with an unbounded clock and all pieces remembered, and as it is done |
| `DisassemblerSpec`, `Disassembler` | packing frames into packets |
| `FragmentRoundTrip`, `FragmentLoss`, `FragmentStale`, `FragmentOrder` | both together, over every run: without losses, with packets lost, with other frames under the same identifier, and with chunks in any order and repeated |
| `FragmentLatency` | how long what is written waits in a packet |
| `BProto`, `BProtoSpec`, `BProtoWriter`, `BProtoParser` | the serializers that the generator emits, for an arbitrary schema |
| `DataProto`, `DPRelay`, `Peers` | flows and sinks, relayed flows, and the links, relays and users among peers |
| `Keepalive` | how both ends of a link find that it is up |
| `MacSpec`, `MacTable`, `GroupTable`, `FrameDecider` | a learning switch: addresses, multicast groups, destinations |
| `Binding`, `Seeds` | two handshakes between peers, over channels that keep order |
| `SPProto` | secured packets |
| `PeerIO` | the way of a frame from one client to another, through all of that |
| `Dhcp`, `DhcpLaws`, `DhcpClient` | the DHCP client: what it does over time, what it asks for and heeds, and as it runs |
| `DhcpOptions`, `DhcpReply`, `DhcpMessage` | the options of a packet, which packets are replies, and the packets that are sent |

Conventions of the model. A C list is a `seq`, a search tree a `map`; both are real fields,
and `Valid()` says how they agree. The set of all live objects of a kind is a ghost field.
A reactor timer is its due time, and time is a parameter. A queue is the buffer it is
sending for. Failing system calls and cryptography are parameters: a Boolean, or a function
of which only the law that matters is demanded. Method preconditions are the assertions of
the source at the same place.

Points where the code decides:

- The assembler evicts the entry that was allocated first, whether or not it or another has
  timed out (`FragmentProtoAssembler.c:57-68`). `AssemblerSpec.DropsLiveExactly` says when that
  costs a frame that has not; `AssemblerSpec.LiveFrameIsDropped` is a run in which it does while
  one that has timed out stays.
- While a multicast decision is pending, a new frame is not decided on, and the iterator over
  the list is freed (`FrameDecider.c:374-376`). The client uses every decision up at once.
- A flow whose buffer is attached but not busy, while the flow is meant for no sink, cannot
  occur: the branches for it in `DataProto.c:463-476` and `DataProto.c:525-534` are proved dead.
- A multicast frame has one destination for each membership, so a peer that is in two groups
  with the same signature gets it twice (`FrameDecider.c:541-550`).

## Model

| member | source | states |
|---|---|---|
| `FragmentProto.ParseInvertsEncode` | v2ray/v2rayNG/badvpn/client/FragmentProtoAssembler.c:285-323 | Reading a packet chunk by chunk gives back exactly the chunks that were written to it, whatever their lengths |
| `FragmentProto.NextChunkDecides` | v2ray/v2rayNG/badvpn/client/FragmentProtoAssembler.c:289-314 | A chunk is read at a position exactly if its encoding stands there; where the encoding of none does, for a short header, a bad last flag or too little data, the reading of the packet ends |
| `FragmentProto.ChunkLayout` | v2ray/v2rayNG/badvpn/protocol/fragmentproto.h:40-80 | What is read as a chunk, byte by byte: identifier, start and length with the low byte first, whether it is the last, and the data |
| `AssemblerSpec.SumDecidesCoverage` | v2ray/v2rayNG/badvpn/client/FragmentProtoAssembler.c:195-202 | For pieces that do not overlap, the running sum of lengths never exceeds the length and reaches it exactly if every position is covered (a pigeonhole argument) |
| `AssemblerSpec.ByteAtIsUnique` | v2ray/v2rayNG/badvpn/client/FragmentProtoAssembler.c:105-108 | A byte position lies in one accepted piece only, so what it holds does not depend on the order of arrival |
| `AssemblerSpec.CompletedIsTiled` | v2ray/v2rayNG/badvpn/client/FragmentProtoAssembler.c:233-271 | A chunk that completes a frame makes the accepted chunks a tiling of it: each emitted byte is the one of the accepted chunk covering it |
| `AssemblerSpec.EmittedFramesAreTiled` | v2ray/v2rayNG/badvpn/client/FragmentProtoAssembler.c:154-345 | In every run, with chunks reordered, duplicated, overlapping or empty, every emitted frame is tiled by chunks that were received under one frame identifier, and ends where a chunk received under it ends that says it is the last |
| `AssemblerSpec.ArriveKeepsOk` | v2ray/v2rayNG/badvpn/client/FragmentProtoAssembler.c:154-283 | Every arrival keeps the pool sound: distinct identifiers, pieces apart and within bounds, no more of either than there is room for, no frame newer than the clock |
| `AssemblerSpec.LiveKeepsOk` | v2ray/v2rayNG/badvpn/client/FragmentProtoAssembler.c:117-136 | Rebasing keeps exactly the frames that have not timed out, and their order, and the pool stays sound |
| `AssemblerSpec.PrepareChooses` | v2ray/v2rayNG/badvpn/client/FragmentProtoAssembler.c:177-193 | The chunks of a frame are collected in its entry as it is, or in a blank one if that has timed out or is missing; of the other frames at most the one allocated first goes, and only from a full pool that does not know the frame |
| `AssemblerSpec.DropsLiveExactly` | v2ray/v2rayNG/badvpn/client/FragmentProtoAssembler.c:57-68 | An arrival costs a frame of another identifier that has not timed out exactly if the pool is full, the identifier is unknown and the entry allocated first has not timed out, no matter which others have |
| `AssemblerSpec.LiveFrameIsDropped` | v2ray/v2rayNG/badvpn/client/FragmentProtoAssembler.c:57-68 | That does happen: a run after which an arrival drops the first frame, received again lately, while the second, which has timed out, stays |
| `AssemblerSpec.BeyondIsIgnored` | v2ray/v2rayNG/badvpn/client/FragmentProtoAssembler.c:162-172 | A chunk that reaches beyond the largest frame changes nothing |
| `Assembler.Assembler.constructor` | v2ray/v2rayNG/badvpn/client/FragmentProtoAssembler.c:370-445 | The assembler starts with a fresh pool and a clock at zero |
| `Assembler.CheckChunk` | v2ray/v2rayNG/badvpn/client/FragmentProtoAssembler.c:197-231 | The overlap loop and the length checks accept a chunk exactly if it overlaps no earlier one and agrees with the known length |
| `Assembler.AcceptsIsFits` | v2ray/v2rayNG/badvpn/client/FragmentProtoAssembler.c:197-231 | Testing the summary fields of an entry is the same as testing all pieces accepted for the frame |
| `Assembler.SumTellsCompletion` | v2ray/v2rayNG/badvpn/client/FragmentProtoAssembler.c:260-271 | An entry is complete exactly if its sum has reached its length; then sum and length are equal and the buffer starts with the assembled frame, so nothing of an earlier user of the slot is emitted |
| `Assembler.LookupAgrees` | v2ray/v2rayNG/badvpn/client/FragmentProtoAssembler.c:177-178 | The tree finds a frame exactly if the pool holds it, at its place in the list of used entries |
| `Assembler.OldestIsFirst` | v2ray/v2rayNG/badvpn/client/FragmentProtoAssembler.c:57-68 | The head of the list of used entries is the frame that was allocated first |
| `Assembler.Assembler.FreeFrame` | v2ray/v2rayNG/badvpn/client/FragmentProtoAssembler.c:46-55 | An entry leaves the list and the tree and goes to the end of the free list, and just that frame is gone |
| `Assembler.Assembler.FreeOldestFrame` | v2ray/v2rayNG/badvpn/client/FragmentProtoAssembler.c:57-68 | The frame allocated first is dropped, and no other |
| `Assembler.Assembler.AllocateNewFrame` | v2ray/v2rayNG/badvpn/client/FragmentProtoAssembler.c:70-103 | A new frame is appended; only a full pool loses its oldest one for it |
| `Assembler.Assembler.EntryFor` | v2ray/v2rayNG/badvpn/client/FragmentProtoAssembler.c:177-193 | A timed-out entry is replaced by a fresh one, another is reused |
| `Assembler.Assembler.ProcessChunk` | v2ray/v2rayNG/badvpn/client/FragmentProtoAssembler.c:154-283 | A chunk does to the pool, and returns, what the unbounded specification says |
| `Assembler.Assembler.DropTimedOut` | v2ray/v2rayNG/badvpn/client/FragmentProtoAssembler.c:117-136 | Exactly the timed-out frames are freed, and the smallest time of the others is found |
| `Assembler.PoolAfterShift` | v2ray/v2rayNG/badvpn/client/FragmentProtoAssembler.c:144-151 | Subtracting one time from the clock and all used entries changes no age, so the pool still stands for the same unbounded one |
| `Assembler.Assembler.ReduceTimes` | v2ray/v2rayNG/badvpn/client/FragmentProtoAssembler.c:117-152 | Rebasing frees exactly the timed-out frames, changes nothing of the survivors as seen by an unbounded clock, and leaves the clock at most at the tolerance |
| `Assembler.Assembler.AdvanceTime` | v2ray/v2rayNG/badvpn/client/FragmentProtoAssembler.c:325-339 | The packet clock never passes its maximum, and every step of it is one step of an unbounded clock |
| `Assembler.Assembler.ProcessInput` | v2ray/v2rayNG/badvpn/client/FragmentProtoAssembler.c:285-346 | A packet is processed up to the chunk that completes a frame, or to its end, just as the specification says |
| `Assembler.Assembler.InputSend` | v2ray/v2rayNG/badvpn/client/FragmentProtoAssembler.c:348-360 | An arriving packet is read as the chunks it encodes and processed |
| `Assembler.Assembler.OutputDone` | v2ray/v2rayNG/badvpn/client/FragmentProtoAssembler.c:362-368 | Processing resumes behind the chunk that completed the last frame |
| `DisassemblerSpec.CutCarries` | v2ray/v2rayNG/badvpn/client/FragmentProtoDisassembler.c:49-74 | The chunks written to a packet carry the frame on without a gap, each starting where the one before it ended and holding what is there; they fit the packet, always make progress, and leave off only at the end of the frame or with the packet full |
| `DisassemblerSpec.CutLimits` | v2ray/v2rayNG/badvpn/client/FragmentProtoDisassembler.c:49-74 | No chunk is longer than the chunk MTU, if there is one, and none but the last of a cut is shorter |
| `DisassemblerSpec.HandsOver` | v2ray/v2rayNG/badvpn/client/FragmentProtoDisassembler.c:84-101 | If packets may wait, none but the timer hands over one that is not full; if they may not, nothing that is written is kept; the timer hands over what has waited for the latency since its first chunk was written, however much was written later |
| `DisassemblerSpec.StepKeepsOk` | v2ray/v2rayNG/badvpn/client/FragmentProtoDisassembler.c:39-162 | Every handler keeps a packet being filled with room left in it, and the timer running exactly while it holds something |
| `Disassembler.Disassembler.constructor` | v2ray/v2rayNG/badvpn/client/FragmentProtoDisassembler.c:164-199 | The disassembler starts with neither frame nor packet |
| `Disassembler.Disassembler.WriteChunk` | v2ray/v2rayNG/badvpn/client/FragmentProtoDisassembler.c:50-73 | One header and its data are appended to the packet buffer, for the next piece of the frame |
| `Disassembler.Disassembler.FillPacket` | v2ray/v2rayNG/badvpn/client/FragmentProtoDisassembler.c:49-74 | The loop writes exactly the chunks that cut the rest of the frame for the room there is, limited by the chunk MTU |
| `Disassembler.Disassembler.WriteChunks` | v2ray/v2rayNG/badvpn/client/FragmentProtoDisassembler.c:39-102 | After the loop the frame is finished and the packet handed over, or not, exactly as specified |
| `Disassembler.Disassembler.HandOver` | v2ray/v2rayNG/badvpn/client/FragmentProtoDisassembler.c:84-101 | A packet that is full or must not wait is handed over and its timer stopped; for another the timer runs on, or is started |
| `Disassembler.Disassembler.InputSend` | v2ray/v2rayNG/badvpn/client/FragmentProtoDisassembler.c:104-120 | A frame is taken, and written at once if there is a packet |
| `Disassembler.Disassembler.OutputRecv` | v2ray/v2rayNG/badvpn/client/FragmentProtoDisassembler.c:134-149 | A packet buffer is taken, and filled at once if there is a frame |
| `Disassembler.Disassembler.TimerExpired` | v2ray/v2rayNG/badvpn/client/FragmentProtoDisassembler.c:151-162 | A packet that has waited for the latency is handed over as it is |
| `FragmentRoundTrip.ResumingDelivers` | v2ray/v2rayNG/badvpn/client/FragmentProtoAssembler.c:285-368 | Handing frames out one by one and resuming delivers the same as processing the packet at once |
| `FragmentRoundTrip.OneChunk` | v2ray/v2rayNG/badvpn/client/FragmentProtoAssembler.c:154-283 | A chunk that carries a frame on extends what the receiver holds of it, and the last one yields the frame, whatever else the receiver holds; other frames may go but none come |
| `FragmentRoundTrip.ChunksTaken` | v2ray/v2rayNG/badvpn/client/FragmentProtoAssembler.c:154-283 | So do any number of chunks that carry it on, up to as many as an entry can hold |
| `FragmentRoundTrip.CutTaken` | v2ray/v2rayNG/badvpn/client/FragmentProtoDisassembler.c:49-74 | The chunks cut for one packet complete the frame at the receiver or leave it in step with the sender |
| `FragmentRoundTrip.RoundTrip` | v2ray/v2rayNG/badvpn/client/FragmentProtoDisassembler.c:39-162 | For every sequence of frames, output requests and timer expiries, and whenever the receiver rebases its clock, the packets delivered in order give exactly the finished frames, in order |
| `FragmentRoundTrip.CutCount` | v2ray/v2rayNG/badvpn/client/FragmentProtoDisassembler.c:49-74 | The chunks counted on for the rest of a frame are as many as are cut for one packet and are counted on for what is left then |
| `FragmentRoundTrip.ChunkBound` | v2ray/v2rayNG/badvpn/client/FragmentProtoDisassembler.c:49-74 | Without a chunk MTU at most 1 + ceil((n - 1) / (MTU - header)) chunks are counted on for a frame of n > 0 bytes, wherever it starts in a packet |
| `FragmentRoundTrip.FramesOnWire` | v2ray/v2rayNG/badvpn/client/FragmentProtoDisassembler.c:39-162 | In every run, what is in the packets is, frame after frame, the chunks of that frame: they carry it from start to end, and are exactly as many as are counted on, so within that bound |
| `FragmentRoundTrip.ConfiguredChunksSuffice` | v2ray/v2rayNG/badvpn/protocol/fragmentproto.h:92-98 | The number of chunks the receiver is configured with is never too small |
| `FragmentRoundTrip.BytesDeliverChunks` | v2ray/v2rayNG/badvpn/client/FragmentProtoAssembler.c:285-346 | Delivering the packets as bytes is delivering their chunks |
| `FragmentRoundTrip.RoundTripAsConfigured` | v2ray/v2rayNG/badvpn/client/DatagramPeerIO.c:195-226 | With a packet size and a number of chunks as the client configures them, the packets as bytes give back the finished frames |
| `FragmentLoss.OnlySentFrames` | v2ray/v2rayNG/badvpn/client/FragmentProtoAssembler.c:154-346 | Of fewer than 2^16 frames, whatever packets of a run arrive, in whatever order and however often: every frame that comes out is one that was sent |
| `FragmentLoss.OnlySentArrive` | v2ray/v2rayNG/badvpn/client/FragmentProtoAssembler.c:285-346 | The same for the packets as bytes |
| `FragmentLoss.IntactFramesArrive` | v2ray/v2rayNG/badvpn/client/FragmentProtoAssembler.c:154-346 | If packets are delivered in order and some are lost, of fewer than 2^16 frames exactly those come out, in order, of which no packet is lost: what is left of the others neither completes a frame nor costs one |
| `FragmentLoss.ChunkBroken` | v2ray/v2rayNG/badvpn/client/FragmentProtoAssembler.c:195-283 | An entry that lacks something sent before, or holds something from behind, is not completed by the chunks that follow |
| `FragmentLoss.ArriveLeaves` | v2ray/v2rayNG/badvpn/client/FragmentProtoAssembler.c:154-283 | Under the identifier of a chunk an arrival leaves the entry with that chunk, if it fits and is not complete, and otherwise none |
| `FragmentStale.ArrivesUnlessHeld` | v2ray/v2rayNG/badvpn/client/FragmentProtoAssembler.c:177-193 | A frame all packets of which arrive comes out of a receiver in any state, unless an entry under its identifier has not timed out; then nothing comes out, or, if that entry knows its end, at most a frame with that end and with what was held |
| `FragmentOrder.NewJoins` | v2ray/v2rayNG/badvpn/client/FragmentProtoAssembler.c:197-231 | A chunk of a frame joins the entry of any others of it, whichever came first |
| `FragmentOrder.CompleteWithAll` | v2ray/v2rayNG/badvpn/client/FragmentProtoAssembler.c:260-271 | The entry is complete exactly if it has all chunks of the frame, and then makes up the frame |
| `FragmentOrder.HeldArrive` | v2ray/v2rayNG/badvpn/client/FragmentProtoAssembler.c:57-103 | An entry outlives the arrival of chunks of fewer other frames than the pool has room for |
| `FragmentOrder.CollectsChunks` | v2ray/v2rayNG/badvpn/client/FragmentProtoAssembler.c:154-346 | Whatever chunks of a frame arrive from any state on, in whatever order and however often, among those of fewer other frames than the pool has room for: the frame comes out each time that all its chunks have been collected, where one that comes again, or comes after more packets than the tolerance, makes it start over; nothing else comes out under its identifier |
| `FragmentOrder.AnyOrder` | v2ray/v2rayNG/badvpn/client/FragmentProtoAssembler.c:154-346 | If each chunk comes once, in any order, the frame comes out exactly if no more packets end between two of them than the tolerance |
| `FragmentOrder.SentInAnyOrder` | v2ray/v2rayNG/badvpn/client/FragmentProtoDisassembler.c:39-162 | So for each frame of a run of the sender |
| `FragmentLatency.PacketsAreFull` | v2ray/v2rayNG/badvpn/client/FragmentProtoDisassembler.c:84-101 | Over every run, each packet is full that no timer has handed over; with no latency nothing is ever kept, and no timer runs |
| `FragmentLatency.NothingWaitsLonger` | v2ray/v2rayNG/badvpn/client/FragmentProtoDisassembler.h:79-82 | Over every run with a punctual timer, what has been written waits for no longer than the latency, and the timer hands it over just then |
| `PeerIO.FitsSocket` | v2ray/v2rayNG/badvpn/client/DatagramPeerIO.c:182-192 | With the packet size that is computed from the MTU of the socket, a secured packet always fits a datagram |
| `PeerIO.PacketsDecoded` | v2ray/v2rayNG/badvpn/client/DatagramPeerIO.c:195-234 | Whatever passwords that the receiver accepts and whatever initialization vectors are taken, the datagrams that packets are carried by fit the socket, and those that are not lost are decoded to their packets, in order |
| `PeerIO.EndToEnd` | v2ray/v2rayNG/badvpn/client/DatagramPeerIO.c:134-260 | From frames to frames, through disassembler, encoder, datagrams, decoder with its check of the passwords, and assembler, with the sizes the client computes: in every run the frames that were finished come out, byte for byte and in order |
| `PeerIO.EndToEndWithLosses` | v2ray/v2rayNG/badvpn/client/DatagramPeerIO.c:134-260 | With datagrams lost, of fewer than 2^16 frames exactly those come out, in order, of which no datagram is |
| `PeerIO.OnlySentComeOut` | v2ray/v2rayNG/badvpn/client/DatagramPeerIO.c:134-260 | With datagrams lost, repeated and reordered, only frames come out that were sent |
| `BProto.ReadInvertsEncode` | v2ray/v2rayNG/badvpn/bproto_generator/bproto_functions.php:454-575 | A buffer reads as some items exactly if it is their encoding |
| `BProto.EncodeInjective` | v2ray/v2rayNG/badvpn/bproto_generator/bproto_functions.php:342-419 | Different messages have different encodings |
| `BProto.ItemLayout` | v2ray/v2rayNG/badvpn/bproto_generator/bproto_functions.php:454-560 | What is read as an item, byte by byte |
| `BProtoSpec.ConformingDecides` | v2ray/v2rayNG/badvpn/bproto_generator/bproto_functions.php:578-606 | The messages of a schema are those whose items are all of it and that have one value of each required field, at most one of an optional and at least one of a required repeated one |
| `BProtoSpec.ValuesFit` | v2ray/v2rayNG/badvpn/bproto_generator/bproto_functions.php:500-560 | A value has the size that the type of its field demands |
| `BProtoSpec.LookupDecides` | v2ray/v2rayNG/badvpn/bproto_generator/bproto_functions.php:474-574 | The parser looks an item up by identifier and kind; at most one field is found, so an item that does not match it belongs to none |
| `BProtoSpec.SameTypeMatches` | v2ray/v2rayNG/badvpn/bproto_generator/bproto_functions.php:648-759 | In an accepted message the getters need only compare identifier and type to find the items of a field |
| `BProtoSpec.FirstAndEnd` | v2ray/v2rayNG/badvpn/bproto_generator/bproto_functions.php:494-498 | All items of a field lie between the first one and the end of the last one |
| `BProtoWriter.Writer.constructor` | v2ray/v2rayNG/badvpn/bproto_generator/bproto_functions.php:303-318 | A writer starts with an empty message |
| `BProtoWriter.Writer.Put` | v2ray/v2rayNG/badvpn/bproto_generator/bproto_functions.php:355-362 | Bytes go behind those written so far, and those stay |
| `BProtoWriter.Writer.PutItem` | v2ray/v2rayNG/badvpn/bproto_generator/bproto_functions.php:355-395 | An item is written as its header, for data its length, and its payload |
| `BProtoWriter.Writer.Add` | v2ray/v2rayNG/badvpn/bproto_generator/bproto_functions.php:342-419 | Adding to a field appends one item of it to the message |
| `BProtoWriter.Writer.AddUint` | v2ray/v2rayNG/badvpn/bproto_generator/bproto_functions.php:366-372 | An integer is added as little-endian bytes of the width of its type |
| `BProtoWriter.Writer.AddData` | v2ray/v2rayNG/badvpn/bproto_generator/bproto_functions.php:373-395 | An item of the given length is appended, and the place of its data is returned |
| `BProtoWriter.Writer.Fill` | v2ray/v2rayNG/badvpn/bproto_generator/bproto_functions.php:373-395 | What is put in that place, at once or later, is the data of the item, and nothing else changes |
| `BProtoWriter.EncodeFilled` | v2ray/v2rayNG/badvpn/bproto_generator/bproto_functions.php:373-395 | Other data of the same length changes the encoding of a message just at its place |
| `BProtoWriter.Writer.Finish` | v2ray/v2rayNG/badvpn/bproto_generator/bproto_functions.php:320-337 | A finished message conforms to the schema and is the encoding of the items added |
| `BProtoParser.Lookup` | v2ray/v2rayNG/badvpn/bproto_generator/bproto_functions.php:474-574 | The field of an item is found if there is one, by identifier and by the width of an integer or being data |
| `BProtoParser.ScanItem` | v2ray/v2rayNG/badvpn/bproto_generator/bproto_functions.php:457-530 | Reading past an item succeeds exactly if a whole item of a known type is there |
| `BProtoParser.Parser.NoteItem` | v2ray/v2rayNG/badvpn/bproto_generator/bproto_functions.php:493-499 | Start, span and count of a field take one more item into account |
| `BProtoParser.Parser.Scan` | v2ray/v2rayNG/badvpn/bproto_generator/bproto_functions.php:454-575 | The loop accepts exactly the buffers that consist of items of the form their fields demand, and leaves the cursors tracking them |
| `BProtoParser.CheckCardinalities` | v2ray/v2rayNG/badvpn/bproto_generator/bproto_functions.php:580-605 | The final checks hold exactly if every field occurs as often as its cardinality allows |
| `BProtoParser.AcceptedIsEncoding` | v2ray/v2rayNG/badvpn/bproto_generator/bproto_functions.php:422-610 | What is accepted is exactly the encodings of conforming messages |
| `BProtoParser.Parser.Init` | v2ray/v2rayNG/badvpn/bproto_generator/bproto_functions.php:422-610 | For any bytes, initialization succeeds exactly if they encode a message conforming to the schema, and then every cursor stands before all values of its field |
| `BProtoParser.Parser.Get` | v2ray/v2rayNG/badvpn/bproto_generator/bproto_functions.php:648-759 | A getter returns the next value of its field and moves past it, or nothing when all are read; no other cursor moves, and no read is out of bounds |
| `BProtoParser.Parser.GetUint` | v2ray/v2rayNG/badvpn/bproto_generator/bproto_functions.php:649-702 | The getter of an integer returns the number its payload encodes |
| `BProtoParser.Parser.Reset` | v2ray/v2rayNG/badvpn/bproto_generator/bproto_functions.php:761-764 | A field can be read from its first value again |
| `BProtoParser.Parser.Forward` | v2ray/v2rayNG/badvpn/bproto_generator/bproto_functions.php:766-769 | The rest of a field is skipped |
| `BProtoParser.Parser.GotEverything` | v2ray/v2rayNG/badvpn/bproto_generator/bproto_functions.php:612-637 | Everything is got exactly if no field has a value left |
| `BProtoParser.ItemHead` | v2ray/v2rayNG/badvpn/bproto_generator/bproto_functions.php:656-731 | The getters find the payload of an item that validation has let through |
| `BProtoParser.ValuesReach` | v2ray/v2rayNG/badvpn/bproto_generator/bproto_functions.php:612-637 | While an item of a field is ahead of its cursor, the field has a value left |
| `BProtoParser.ParseWritten` | v2ray/v2rayNG/badvpn/bproto_generator/bproto_functions.php:303-769 | Round trip: for every schema, a finished message is accepted, and each field has exactly the values added to it, in the order of adding |
| `DataProto.FlowBuffer.Attach` | v2ray/v2rayNG/badvpn/client/DataProto.c:146-158 | An unattached buffer is attached |
| `DataProto.FlowBuffer.Detach` | v2ray/v2rayNG/badvpn/client/DataProto.c:160-178 | A buffer leaves a sink, which forgets it; only the queue being freed lets a busy one go |
| `DataProto.FlowBuffer.ScheduleDetach` | v2ray/v2rayNG/badvpn/client/DataProto.c:180-198 | A busy buffer becomes the one its sink waits for |
| `DataProto.Net.BufferStates` | v2ray/v2rayNG/badvpn/client/DataProto.c:127-225 | Each live buffer is unattached and wanted nowhere, or where its flow wants it, or the one its sink is busy with and waits for; only such a one can have lost its flow, so none is leaked |
| `DataProto.Net.FlowAttach` | v2ray/v2rayNG/badvpn/client/DataProto.c:516-543 | The flow is meant for the sink from now on; its buffer is there at once unless it still has to leave another one |
| `DataProto.Net.FlowDetach` | v2ray/v2rayNG/badvpn/client/DataProto.c:545-566 | The flow is meant for no sink; its buffer is gone at once, or waits if it is busy |
| `DataProto.Net.FlowFree` | v2ray/v2rayNG/badvpn/client/DataProto.c:458-484 | The flow is gone; its buffer is freed, or is left to go by itself if it is busy |
| `DataProto.Net.FinishDetach` | v2ray/v2rayNG/badvpn/client/DataProto.c:200-216 | A buffer that may leave goes to where its flow wants it, or is freed if the flow is gone |
| `DataProto.Net.DoneSending` | v2ray/v2rayNG/badvpn/client/DataProto.c:218-225 | When the queue is done with a buffer, it stays, moves to where it is wanted, or is freed, by what has happened meanwhile; all invariants hold |
| `DataProto.Net.SinkFree` | v2ray/v2rayNG/badvpn/client/DataProto.c:297-309 | If no flow is meant for a sink, freeing it leaves no buffer attached to it; at most the waiting one is freed, and only if its flow is gone |
| `Keepalive.UpMeansBothWays` | v2ray/v2rayNG/badvpn/client/DataProto.c:339-358 | Over every run of a link over which packets are lost, repeated and reordered: an end that considers it up has heard a packet within the tolerance, and has heard one before that was sent when the other end had heard one within the tolerance |
| `Keepalive.ReportsInTurn` | v2ray/v2rayNG/badvpn/client/DataProto.c:62-108 | Over every run up and down are reported in turn, beginning with up, and the job is set exactly if what is so was not reported last |
| `Keepalive.Monitor.Received` | v2ray/v2rayNG/badvpn/client/DataProto.c:339-358 | A packet restarts the receive timer and makes the link up or down by what it says; to an end that does not hear this one a keepalive is sent at once |
| `Keepalive.Monitor.ReceiveTimerExpired` | v2ray/v2rayNG/badvpn/client/DataProto.c:71-79 | After a silence the link is down |
| `Keepalive.Monitor.UpJob` | v2ray/v2rayNG/badvpn/client/DataProto.c:100-109 | A change is reported |
| `Keepalive.Monitor.Flag` | v2ray/v2rayNG/badvpn/client/DataProto.c:81-98 | A packet says whether the receive timer runs |
| `DPRelay.Router.FindFlow` | v2ray/v2rayNG/badvpn/client/DPRelay.c:116-127 | The flow between a source and a sink is found if there is one |
| `DPRelay.Router.CreateFlow` | v2ray/v2rayNG/badvpn/client/DPRelay.c:42-82 | A flow that is not there yet is added to both lists, and is meant for where its sink is attached; if the allocation fails nothing changes |
| `DPRelay.Router.FreeFlow` | v2ray/v2rayNG/badvpn/client/DPRelay.c:84-107 | The flow is detached, leaves both lists and is freed; the router no longer refers to it, and nothing else changes |
| `DPRelay.Router.FlowInactive` | v2ray/v2rayNG/badvpn/client/DPRelay.c:109-114 | A flow that timed out is freed |
| `DPRelay.Router.SubmitFrame` | v2ray/v2rayNG/badvpn/client/DPRelay.c:186-221 | The frame is kept for the one flow between its source and its sink, which is created if need be; it goes nowhere exactly if there is no room for it, or none for a new flow |
| `DPRelay.Router.RouteFrame` | v2ray/v2rayNG/badvpn/client/DPRelay.c:129-142 | The frame that was submitted is routed to a flow that still exists, or dropped |
| `DPRelay.Router.SourceFree` | v2ray/v2rayNG/badvpn/client/DPRelay.c:238-249 | Exactly the flows from the source are freed |
| `DPRelay.Router.SinkFree` | v2ray/v2rayNG/badvpn/client/DPRelay.c:265-276 | Exactly the flows to the sink are freed |
| `DPRelay.Router.SinkAttach` | v2ray/v2rayNG/badvpn/client/DPRelay.c:278-292 | Exactly the flows to the sink are attached, and follow it |
| `DPRelay.Router.SinkDetach` | v2ray/v2rayNG/badvpn/client/DPRelay.c:294-307 | Exactly the flows to the sink are detached |
| `Peers.Client.RegisterNeedRelay` | v2ray/v2rayNG/badvpn/client/client.c:1870-1883 | The peer is appended to the waiting ones |
| `Peers.Client.UnregisterNeedRelay` | v2ray/v2rayNG/badvpn/client/client.c:1885-1898 | The peer leaves the waiting ones |
| `Peers.Client.InstallRelaying` | v2ray/v2rayNG/badvpn/client/client.c:1802-1822 | The peer becomes the last user of the relay, and its flow goes over the link of that |
| `Peers.Client.FreeRelaying` | v2ray/v2rayNG/badvpn/client/client.c:1824-1845 | The peer leaves its relay, and its flow goes nowhere |
| `Peers.Client.AssignRelays` | v2ray/v2rayNG/badvpn/client/client.c:2684-2709 | All waiting peers become users of the first relay, in order, or all stay waiting if there is none |
| `Peers.Client.InitLink` | v2ray/v2rayNG/badvpn/client/client.c:1606-1693 | The peer gets a new link, to which its own flow and the flows relayed to it are attached; if the transport fails nothing has changed |
| `Peers.Client.OnlyOwnFlows` | v2ray/v2rayNG/badvpn/client/client.c:1695-1727 | Of all flows, local ones of any peer and relayed ones, only the peer's own and those relayed to it are meant for the link of a peer that is no relay |
| `Peers.Client.FreeLink` | v2ray/v2rayNG/badvpn/client/client.c:1695-1727 | Freeing a link is safe: when its sink is freed no flow at all is meant for it any more |
| `Peers.Client.EnableRelayProvider` | v2ray/v2rayNG/badvpn/client/client.c:1750-1769 | The peer joins the relays, and takes all waiting peers on |
| `Peers.Client.DisableRelayProvider` | v2ray/v2rayNG/badvpn/client/client.c:1771-1800 | The peer leaves the relays, and its users go to the first other relay, or wait |
| `Peers.Client.CleanupConnections` | v2ray/v2rayNG/badvpn/client/client.c:1729-1748 | The peer is neither linked, relayed, waiting nor a relay; those it relayed for have gone elsewhere |
| `Peers.Client.NeedRelay` | v2ray/v2rayNG/badvpn/client/client.c:1847-1868 | The peer gives up its link or relay and gets the first relay, or waits |
| `Peers.Client.FreshLink` | v2ray/v2rayNG/badvpn/client/client.c:2348-2355 | For binding and for connecting, a peer in any state ends up with a fresh link, or unconnected |
| `Peers.Client.LinkReport` | v2ray/v2rayNG/badvpn/client/client.c:2626-2645 | A link that is up makes a relay of a peer that may be one, and one that is down no longer |
| `Peers.Client.AddPeer` | v2ray/v2rayNG/badvpn/client/client.c:1441-1475 | A new peer is unreached, with a flow, a source and a sink of its own; if any part cannot be made nothing changes |
| `Peers.Client.RemovePeer` | v2ray/v2rayNG/badvpn/client/client.c:1509-1568 | Nothing of the peer remains, its users have gone elsewhere, and all other peers are as they were |
| `Peers.Client.RelayFrame` | v2ray/v2rayNG/badvpn/client/DPReceive.c:163-166 | A frame from one peer to another is relayed by the flow from the one to the other, unless there is no room for it |
| `Peers.Client.RelayFlowInactive` | v2ray/v2rayNG/badvpn/client/DPRelay.c:109-114 | A relay flow that timed out is freed, and no other, with all invariants of peers and links |
| `Peers.Client.RelayFrameRouted` | v2ray/v2rayNG/badvpn/client/DPRelay.c:129-142 | The frame that was relayed goes, if its flow is still there, over the link of the peer it is for, with all invariants of peers and links |
| `Peers.Client.PacketSent` | v2ray/v2rayNG/badvpn/client/DataProto.c:218-225 | Nor does that it is done with one, even if a buffer leaves it or is freed then |
| `Peers.Client.RelayedOverOwnLink` | v2ray/v2rayNG/badvpn/client/DPReceive.c:269-290 | What is relayed to a peer goes over that peer's own link, if it has one |
| `Peers.Client.WaitsForLackOfRelays` | v2ray/v2rayNG/badvpn/client/client.c:2684-2709 | Between events a peer waits for a relay only if no peer is one |
| `Peers.Client.RelayedOverRelay` | v2ray/v2rayNG/badvpn/client/client.c:1802-1822 | Frames for a relayed peer go over the link of its relay, which has one, and over no other |
| `Recency.RememberKeepsRest` | v2ray/v2rayNG/badvpn/client/FrameDecider.c:69-118 | Only the least recently seen one of a full list is lost when another is seen |
| `Recency.AfterRemember` | v2ray/v2rayNG/badvpn/client/FrameDecider.c:90-108 | What follows an element in the list grows at most by what is seen, until as much has followed it as the list can hold |
| `MacSpec.FoundIsLastSender` | v2ray/v2rayNG/badvpn/client/FrameDecider.c:69-118 | Over every history, a peer that is found for an address was the last to send from it, and has not left since |
| `MacSpec.RecentIsFound` | v2ray/v2rayNG/badvpn/client/FrameDecider.c:69-118 | Over every history, the last sender from an address is found as long as it has sent from fewer other addresses since than it has room for |
| `MacTable.Macs.Lookup` | v2ray/v2rayNG/badvpn/client/FrameDecider.c:498-504 | Looking an address up finds its last sender, or nobody only if that has left or has since sent from as many others as there is room for |
| `MacTable.Macs.AddMac` | v2ray/v2rayNG/badvpn/client/FrameDecider.c:69-118 | A frame from an address extends the history, in all three cases: the peer's own address, another peer's, a new one with or without room |
| `MacTable.Macs.StoreMac` | v2ray/v2rayNG/badvpn/client/FrameDecider.c:69-118 | The address becomes the last of its peer and nobody else's; a full peer loses its oldest one; free and used entries still partition each peer's, and the tree holds exactly the used ones |
| `MacTable.Macs.AddPeer` | v2ray/v2rayNG/badvpn/client/FrameDecider.c:580-593 | A new peer has no addresses, and all entries free |
| `MacTable.Macs.FreePeer` | v2ray/v2rayNG/badvpn/client/FrameDecider.c:650-656 | The addresses of a peer that goes are nobody's |
| `GroupTable.Groups.AddToMulticast` | v2ray/v2rayNG/badvpn/client/FrameDecider.c:133-164 | The entry joins the list of its signature, as its master exactly if it is the first |
| `GroupTable.Groups.RemoveFromMulticast` | v2ray/v2rayNG/badvpn/client/FrameDecider.c:166-197 | The entry leaves the list of its signature; if it was the master another of the list becomes it, and an empty list leaves the tree |
| `GroupTable.Groups.MastersWithout` | v2ray/v2rayNG/badvpn/client/FrameDecider.c:171-193 | When a master goes exactly one entry of the list is master again, and it is the one in the tree |
| `GroupTable.Groups.Leave` | v2ray/v2rayNG/badvpn/client/FrameDecider.c:254-279 | The group leaves its peer, the entry is free and its timer stopped |
| `GroupTable.Groups.AddGroup` | v2ray/v2rayNG/badvpn/client/FrameDecider.c:199-252 | The group is the one its peer joined last, a full peer loses the one joined first, and its timer, but no other, is set to the membership interval; a new entry stands right behind the one the index holds |
| `GroupTable.JoinedAreRemembered` | v2ray/v2rayNG/badvpn/client/FrameDecider.c:199-253 | Of the groups that a peer joins it is a member of each behind which it has joined fewer others than there is room for, and of no group it has not joined |
| `GroupTable.Groups.TimerExpired` | v2ray/v2rayNG/badvpn/client/FrameDecider.c:316-321 | A membership that has timed out ends |
| `GroupTable.Groups.EntriesFor` | v2ray/v2rayNG/badvpn/client/FrameDecider.c:481-496 | The list of a signature has exactly one entry for each membership of a group with it |
| `GroupTable.Groups.LowerTimers` | v2ray/v2rayNG/badvpn/client/FrameDecider.c:281-314 | Exactly the memberships of the queried group are shortened to the last member query time, and none is prolonged |
| `GroupTable.Groups.AddPeer` | v2ray/v2rayNG/badvpn/client/FrameDecider.c:595-614 | A new peer is a member of no group |
| `GroupTable.Groups.FreePeer` | v2ray/v2rayNG/badvpn/client/FrameDecider.c:638-648 | A peer that goes is on no list, and its timers are stopped |
| `FrameDecider.SignaturesAgree` | v2ray/v2rayNG/badvpn/client/FrameDecider.c:120-131 | Under the mapping of section 6.4 of RFC 1112 the signature of a group and of its Ethernet address agree, and two addresses share one exactly if they agree in the 23 bits |
| `FrameDecider.GoneIsNotReturned` | v2ray/v2rayNG/badvpn/client/FrameDecider.c:658-662 | During a flood, a peer that has been freed or passed is not returned any more |
| `FrameDecider.FloodReturnsNoneTwice` | v2ray/v2rayNG/badvpn/client/FrameDecider.c:527-539 | With peers freed and added at any time, a flood returns no peer twice |
| `FrameDecider.FloodReachesAll` | v2ray/v2rayNG/badvpn/client/FrameDecider.c:527-539 | A peer is returned if it is still present at its turn, at whatever time in the run its place is taken, and also if it is freed afterwards |
| `FrameDecider.Decider.FloodIsFair` | v2ray/v2rayNG/badvpn/client/FrameDecider.c:506-539 | Over the whole course of a flood as the decider runs it, with peers added and freed: none is returned twice or still pending once returned, and each that was there at the start and still is has been returned or is pending |
| `FrameDecider.Decider.NextDestination` | v2ray/v2rayNG/badvpn/client/FrameDecider.c:512-556 | The next destination is the first of those that remain, until none does |
| `FrameDecider.Decider.AddPeer` | v2ray/v2rayNG/badvpn/client/FrameDecider.c:558-624 | A flood that is not at its end goes to the new peer too, and no other pending decision does |
| `FrameDecider.Decider.FreePeer` | v2ray/v2rayNG/badvpn/client/FrameDecider.c:626-669 | A peer that goes is taken from those that remain, wherever it is among them: the pending unicast target, the current one of a flood, or any entries of a multicast list; no other peer is |
| `FrameDecider.Decider.Analyze` | v2ray/v2rayNG/badvpn/client/FrameDecider.c:671-795 | A peer's frame is remembered by its source address and the groups it reports; it disturbs no pending decision, but that the peer itself may come to or leave a multicast one |
| `FrameDecider.Decider.MembershipEnded` | v2ray/v2rayNG/badvpn/client/FrameDecider.c:316-321 | A membership that has timed out ends, and a pending multicast decision keeps all others |
| `FrameDecider.Decider.AnalyzeAndDecide` | v2ray/v2rayNG/badvpn/client/FrameDecider.c:361-510 | Broadcast and IGMP go to every peer, multicast to the members of the groups of its signature, anything else to the last sender from its destination or, if unknown, to all; exactly while a multicast decision is pending the frame is not looked at |
| `Binding.BindOutcome` | v2ray/v2rayNG/badvpn/client/client.c:2301-2403 | Binding goes on to the first of the addresses left that has external addresses and can be bound, or says that there is none, or ends in a reset at the first for which no link can be made; all before have been tried |
| `Binding.DeliverLeadsOn` | v2ray/v2rayNG/badvpn/client/client.c:2087-2122 | Every message that is delivered leads to a stage with fewer messages and offers to come, and to a retry only if a link could not be made |
| `Binding.HandshakeEnds` | v2ray/v2rayNG/badvpn/client/client.c:2885-2891 | Every round ends, from whatever state of the two peers the master begins it, and whichever links can be made: at most 2(m + s) + 2 messages and m + s offers for m and s addresses, one message on its way at most; at the end either one connects where the other listens, or both ask for a relay, or the master waits to begin once more, and that only if a link could not be made; if the slave was not binding at the start never both are |
| `Binding.FirstRound` | v2ray/v2rayNG/badvpn/client/client.c:2885-2891 | In the first round, with links made, never both are binding, and it ends with one connecting where the other listens or with both asking for a relay |
| `Binding.TurnBegins` | v2ray/v2rayNG/badvpn/client/client.c:2293-2299 | Whatever became of earlier rounds, each turn begins with the first address: what its first message says is decided by the addresses alone |
| `Binding.RoundFindsFirst` | v2ray/v2rayNG/badvpn/client/client.c:2087-2122 | If links can be made, a round that has ended, from whatever state it began, has found the first address of the master that can be bound and connected to, or else the first of the slave, and only if there is none either both want a relay |
| `Binding.OtherMessages` | v2ray/v2rayNG/badvpn/client/client.c:2001-2122 | An offer is refused, taken up over a fresh link, or ends in a reset; stray refusals change nothing |
| `Binding.BindingPeer.BindNext` | v2ray/v2rayNG/badvpn/client/client.c:2301-2403 | The binding loop does what the specification says, each address with a fresh link, which gives up a relay and the wait for one |
| `Binding.BindingPeer.ResetConnection` | v2ray/v2rayNG/badvpn/client/client.c:1900-1914 | After a failure the peer is unconnected, and the master tries again later or is asked to |
| `Binding.BindingPeer.ResetTimerExpired` | v2ray/v2rayNG/badvpn/client/client.c:2283-2291 | The master begins once more |
| `Binding.BindingPeer.Start` | v2ray/v2rayNG/badvpn/client/client.c:2293-2299 | Binding starts with the first address |
| `Binding.BindingPeer.Handle` | v2ray/v2rayNG/badvpn/client/client.c:2001-2237 | The handlers of the four messages do what the specification says, and a message that cannot be parsed changes nothing |
| `Seeds.AddHolds` | v2ray/v2rayNG/badvpn/security/OTPChecker.c:231-254 | A seed that is being made ready takes the place of the oldest table only |
| `Seeds.DoneHolds` | v2ray/v2rayNG/badvpn/security/OTPChecker.c:127-149 | The tables are always the latest seeds that became ready |
| `Seeds.LatestIsFound` | v2ray/v2rayNG/badvpn/security/OTPChecker.c:270-289 | The last seed that became ready is found, and the one before it too while no other is being made |
| `Seeds.FoundIsReady` | v2ray/v2rayNG/badvpn/security/OTPChecker.c:270-289 | Nothing is found of a seed before its tables are ready |
| `Seeds.StepKeepsConsistent` | v2ray/v2rayNG/badvpn/client/SPProtoEncoder.c:64-86 | While passwords are left before the warning, and until it has run, no other seed is under way; after that the one unconfirmed seed is on its way, being made ready, or its confirmation is on its way |
| `Seeds.SeedsInUseAreKnown` | v2ray/v2rayNG/badvpn/client/client.c:2124-2259 | Over every run of a link: no seed is to be sent while one is unconfirmed, at most one message of the handshake is on its way, and the receiver has the tables both of the seed handed to the encoder last and of the one passwords still come from while those of the other are being made |
| `Seeds.PasswordsAreRenewed` | v2ray/v2rayNG/badvpn/client/client.c:2239-2248 | Over every run of a link: once the passwords before the warning are used up, some event other than the sending of a packet can happen, and each that can brings new passwords nearer, so that they are in use after at most six |
| `Seeds.PasswordsAreUsedOnce` | v2ray/v2rayNG/badvpn/client/SPProtoEncoder.c:64-86 | Over every run of a link no password is carried by two packets |
| `Seeds.StrayConfirmation` | v2ray/v2rayNG/badvpn/client/client.c:2186-2220 | A confirmation counts exactly if it is of the seed that waits for one |
| `SPProto.ScanFinds` | v2ray/v2rayNG/badvpn/client/SPProtoDecoder.c:88-101 | The backward scan finds a position exactly if there is a one with only zeros behind it, within the range |
| `SPProto.PaddingIsUnique` | v2ray/v2rayNG/badvpn/client/SPProtoDecoder.c:88-101 | There is at most one place where the padding can start |
| `SPProto.UnpadInvertsPad` | v2ray/v2rayNG/badvpn/client/SPProtoDecoder.c:83-102 | Padding can be taken off exactly from padded plaintexts |
| `SPProto.DecodeInvertsEncode` | v2ray/v2rayNG/badvpn/client/SPProtoDecoder.c:42-155 | A packet is taken apart exactly if it is what its content makes under its own initialization vector, for every combination of passwords, hash and encryption |
| `SPProto.LayoutDecides` | v2ray/v2rayNG/badvpn/protocol/spproto.h:36-110 | The same byte by byte: a packet is taken apart exactly if it holds the password, the hash over all of it with its field zeroed, and the payload, in that order, and if it is encrypted, behind an initialization vector and before a one and zeros up to a whole block |
| `SPProto.RoundTrip` | v2ray/v2rayNG/badvpn/client/SPProtoEncoder.c:87-152 | What is encoded is decoded again, password and payload |
| `SPProto.EncodedFits` | v2ray/v2rayNG/badvpn/protocol/spproto.h:173-191 | An encoded packet fits the carrier MTU, and its padded plaintext the encoder's buffer |
| `SPProto.PayloadMtuIsLargest` | v2ray/v2rayNG/badvpn/protocol/spproto.h:152-163 | The payload MTU computed for a carrier MTU is the largest with which encoded packets fit the carrier, and negative exactly if there is none |
| `SPProto.WriteHeader` | v2ray/v2rayNG/badvpn/client/SPProtoEncoder.c:98-119 | Password and hash are put before the payload, the hash taken with its field zeroed |
| `SPProto.WritePadding` | v2ray/v2rayNG/badvpn/client/SPProtoEncoder.c:123-130 | A one and zeros are put behind the plaintext, up to a whole block |
| `SPProto.EncodeWork` | v2ray/v2rayNG/badvpn/client/SPProtoEncoder.c:87-152 | The buffers end up with the encoding of the payload |
| `SPProto.FindPadding` | v2ray/v2rayNG/badvpn/client/SPProtoDecoder.c:83-102 | The loop finds the padding, or that there is none |
| `SPProto.CheckHash` | v2ray/v2rayNG/badvpn/client/SPProtoDecoder.c:125-147 | The hash is right exactly if it is that of the packet with the field zeroed; the packet is left as it was |
| `SPProto.DecodeWork` | v2ray/v2rayNG/badvpn/client/SPProtoDecoder.c:42-155 | A packet is decoded as specified, and left as it was; without a key nothing encrypted is |
| `Dhcp.StepKeepsOk` | v2ray/v2rayNG/badvpn/dhcpclient/BDHCPClientCore.c:406-678 | Every event keeps the running timers those of the state, the counters within their maxima, and the due times tied to the last acknowledgement |
| `Dhcp.ReportsAlternate` | v2ray/v2rayNG/badvpn/dhcpclient/BDHCPClientCore.c:61-71 | Over every run up and down are reported in turn, starting with up, and up is the last report exactly while there is an address |
| `Dhcp.LeaseIsKept` | v2ray/v2rayNG/badvpn/dhcpclient/BDHCPClientCore.c:48-51 | Over every run in which timers fire when they are due, an address is never in use longer after it was last acknowledged than its lease |
| `Dhcp.LeaseWithDelay` | v2ray/v2rayNG/badvpn/dhcpclient/BDHCPClientCore.c:628-646 | Over every run at all, it is in use longer at most by what the renewal began too late, while no timer is overdue |
| `Dhcp.LeaseSinceRequest` | v2ray/v2rayNG/badvpn/dhcpclient/BDHCPClientCore.c:628-660 | Over every run in which timers fire when they are due and messages are sent by then, it is in use after the last request before the acknowledgement for no longer than its lease and the twenty seconds after which the request would be repeated (section 4.4.5 of RFC 2131 has the lease begin with the request) |
| `Dhcp.StartsShareFewXids` | v2ray/v2rayNG/badvpn/dhcpclient/BDHCPClientCore.c:565-589 | Over every run, at most eight starts are under one transaction identifier, however often requests under it are repeated |
| `DhcpLaws.RepliesDecide` | v2ray/v2rayNG/badvpn/dhcpclient/BDHCPClientCore.c:406-562 | Which replies are heeded, in which state, and what they lead to: an offer to a request that names its address and server, the acknowledgement of those to an address for its lease, with a renewal after half of it, the refusal by that server to a new start; any other reply changes nothing |
| `DhcpLaws.TimersDecide` | v2ray/v2rayNG/badvpn/dhcpclient/BDHCPClientCore.c:591-678 | A request is repeated three times before the process starts over, and a renewal until the lease is over; a start is under a new identifier exactly if that is demanded or the old one was used for eight |
| `DhcpLaws.AddressWasRequested` | v2ray/v2rayNG/badvpn/dhcpclient/BDHCPClientCore.c:478-500 | Over every run in which messages are sent in time, an address in use was asked for by name, from the server that offered it, all requests since name the same, and as many requests for an offer are sent as are counted |
| `DhcpClient.ClientCore.constructor` | v2ray/v2rayNG/badvpn/dhcpclient/BDHCPClientCore.c:685-791 | The client starts by discovering |
| `DhcpClient.ClientCore.SendMessage` | v2ray/v2rayNG/badvpn/dhcpclient/BDHCPClientCore.c:73-198 | A message is handed over unless one still is being sent |
| `DhcpClient.ClientCore.SendFinished` | v2ray/v2rayNG/badvpn/dhcpclient/BDHCPClientCore.c:200-206 | After it has been sent another can be |
| `DhcpClient.ClientCore.StartProcess` | v2ray/v2rayNG/badvpn/dhcpclient/BDHCPClientCore.c:565-589 | A start draws a new transaction identifier if that is demanded or the old one was used for eight, and discovers under it |
| `DhcpClient.ClientCore.HandleReply` | v2ray/v2rayNG/badvpn/dhcpclient/BDHCPClientCore.c:406-562 | A reply does what its kind means in the state it finds |
| `DhcpClient.ClientCore.PacketReceived` | v2ray/v2rayNG/badvpn/dhcpclient/BDHCPClientCore.c:208-562 | A packet that is no reply to the client changes nothing, any other does what the reply it stands for means |
| `DhcpClient.ClientCore.ResetTimerExpired` | v2ray/v2rayNG/badvpn/dhcpclient/BDHCPClientCore.c:591-599 | The process starts again, after a reset under a new identifier |
| `DhcpClient.ClientCore.RequestTimerExpired` | v2ray/v2rayNG/badvpn/dhcpclient/BDHCPClientCore.c:601-626 | The request is repeated, or after four the process starts again |
| `DhcpClient.ClientCore.RenewTimerExpired` | v2ray/v2rayNG/badvpn/dhcpclient/BDHCPClientCore.c:628-646 | The renewal begins, and may last for the rest of the lease |
| `DhcpClient.ClientCore.RenewRequestTimerExpired` | v2ray/v2rayNG/badvpn/dhcpclient/BDHCPClientCore.c:648-660 | The request for the renewal is repeated |
| `DhcpClient.ClientCore.LeaseTimerExpired` | v2ray/v2rayNG/badvpn/dhcpclient/BDHCPClientCore.c:662-678 | The address is given up, and the process starts under a new identifier |
| `DhcpOptions.ParseInvertsEncode` | v2ray/v2rayNG/badvpn/dhcpclient/BDHCPClientCore.c:253-392 | Options that are written, with padding anywhere, are taken in one after the other |
| `DhcpOptions.ParsedIsEncoded` | v2ray/v2rayNG/badvpn/dhcpclient/BDHCPClientCore.c:253-392 | Nothing else is accepted |
| `DhcpOptions.ParseOptions` | v2ray/v2rayNG/badvpn/dhcpclient/BDHCPClientCore.c:277-392 | The cursor loop parses the options as specified, and reads nothing outside the packet |
| `DhcpOptions.LastCounts` | v2ray/v2rayNG/badvpn/dhcpclient/BDHCPClientCore.c:301-391 | Options are understood exactly if each of a known kind has its size, and then the last of each kind counts |
| `DhcpReply.ReplyDecides` | v2ray/v2rayNG/badvpn/dhcpclient/BDHCPClientCore.c:222-418 | Which packets are taken for which replies, byte by byte: those with a header for the client and its transaction, behind which stand options of the right sizes, the last of each kind of which tell the kind, the server, the lease, the mask, the router and at most sixteen name servers |
| `DhcpReply.ReadReply` | v2ray/v2rayNG/badvpn/dhcpclient/BDHCPClientCore.c:208-432 | The checks find the reply that a packet is, or that it is none |
| `DhcpMessage.ComposedFits` | v2ray/v2rayNG/badvpn/dhcpclient/BDHCPClientCore.c:73-198 | With a name of the client that passes the checks at its set-up (lines 729-747), every message fits the smallest send buffer that is allowed |
| `DhcpMessage.ComposedIsRead` | v2ray/v2rayNG/badvpn/dhcpclient/BDHCPClientCore.c:73-198 | A message that is sent carries the transaction identifier and the client's hardware address, and the last options of each kind name its type, the address that is asked for, the server, what is wanted to know, and the client |

## Left out

- Assembler.Assembler: pool entries and their chunks are values in a `seq`, addressed by slot number, not structures linked by pointers; the lists of free and used slots and the tree are fields.
- FragmentRoundTrip.RoundTrip: assumes that a frame is not cancelled; the cancel handler drops a partly sent frame without advancing its identifier (`FragmentProtoDisassembler.c:122-132`).
- BProto: the tokenizer and the grammar of the generator, and the text of the emitted C; the emitted code is modelled once with the schema as a parameter. Buffer lengths are not bounded by the width of `int`.
- DataProto: frame contents, route buffers, and when keepalive packets are sent. The fair queue is modelled by which buffer it is sending for. What a sink knows of its link is apart from it, in Keepalive.
- Peers.Client.RemovePeer: does not model what else a peer has: its chat, server flow, reset timer and part in the frame decider.
- Peers: chat, certificates, server flows, the reset timer and its messages. The list of peers, which serves lookup by identifier only, is a ghost set.
- FrameDecider.Decider.Analyze: takes the source address and the reported groups, and AnalyzeAndDecide the destination and a queried group; the parsing of Ethernet, IPv4 and IGMP headers is not part of this model.
- FrameDecider.Decider.FreePeer: requires, as Analyze and MembershipEnded do, that the iterator of a pending multicast decision has not been freed (`FrameDecider.c:374-376`): one that has does not follow what becomes of the list any more.
- PeerIO: the check of one-time passwords is the multiset of those that are still accepted; the hash tables behind it are not part of this model.
- FragmentLoss: is about fewer than 2^16 frames, the range of identifiers; FragmentStale says what an earlier frame under the same identifier can do.
- FragmentOrder.AnyOrder: is about chunks of fewer other frames than the pool has room for; AssemblerSpec.DropsLiveExactly says when an arrival costs a frame.
- FragmentStale.ArrivesUnlessHeld: requires of a live entry under the identifier that it holds a byte or knows its end, as every one does that a disassembler's chunks have made.
- MacSpec.RecentIsFound: is an implication; how long an address stays beyond that depends on which of the others have been taken over by other peers.
- Binding.HandshakeEnds: messages arrive in order and none is lost, a link that has been made does not fail in the middle of a round, and neither peer is a relay. The two peers are values that exchange messages; the class is one of them. Ports, keys and passwords are not modelled.
- Seeds.SeedsInUseAreKnown: is about one lifetime of a link at both ends; identifiers start at zero again with each link. The peers and the ring of tables are values. The hash tables of passwords within a seed are not modelled.
- SPProto: hashes and ciphers are functions; a cipher is demanded to be invertible on whole packets under each initialization vector. Passwords are six bytes that are carried along. Lengths near the limit of `int` are left out.
- Sockets, TLS, TCP transport, thread work and the resources of the reactor: foreign calls, except for when they complete.
- The other programs of the repository (the Android application, tun2socks, udpgw, ncd, scripts): not part of this model.
