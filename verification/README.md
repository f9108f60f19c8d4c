# dvb2dvb: a verified model

dvb2dvb reads several single-programme DVB streams of variable rate and merges them into one
multi-programme stream of constant rate. This project models its hard parts in Dafny and proves what
the merged stream is promised to be. It follows the program file by file: methods with loops, arrays and
classes where the C code changes things in place, functions and lemmas for what those methods compute and
for what is promised about it.

## How the project is laid out

- `Bytes`, `Octets`, `Arithmetic`: bytes, big-endian fields, stores into a buffer, a few integer facts.
- `Crc32`: `psi_crc32` and its table, proved to be division by the generator polynomial, and how much
  damage to a section it is sure to detect.
- `RingBuffer`, `RingThreads`: the ring buffer as a sequential queue, the exact condition under which its
  unsigned arithmetic is right, and its two threads as a step system with separate snapshot, copy and
  publish steps. Loads and stores of the two pointers are taken to be sequentially consistent.
- `Sections`, `Reassembly`: sections cut into packets and put together again.
- `Descriptors`, `Pmt`, `Pat`, `Text`, `Eit`, `EitSection`, `Sdt`, `SdtSection`: the table rewriters. Each
  table has an abstract value, a reader and a method that fills the buffer as the C code does; reading the
  filled buffer gives the intended transformation of what was read.
- `Pcr`, `Streams`, `Services`: clock references and due positions; what a service's input becomes; and the
  service object with its packet buffer, filled from one clock reference to the next.
- `Events`: the event sections that a receiver of one service's stream gets.
- `Schedule`, `Merge`: traces of the output loop. `Merge.NextItem` is the whole rule for what comes next,
  given everything sent so far and without any buffers; `Merge.Legal` are the traces that follow it.
- `Multiplexer`: the output loop itself, with the services' buffers, the clocks and the counters. Every
  turn sends exactly `NextItem`, so every run of the loop is a legal trace and has all properties of one.
- `Load`: the load of the channel, from the positions of the inputs and the sizes and periods of the tables.
- `Continuity`, `Firsts`: `check_cc`, and exactly when it reports a gap on the multiplexer's own PIDs.
- `Receiver`: what a receiver gets from the output: the tables, and the event sections on the shared PID.
- `Runs`: runs of two services, turn by turn, in which something goes wrong.
- `JsonPasses`, `JsonBuffers`: the two passes of the JSON parser over a configuration file as one automaton,
  and its nodes: what the first pass counts, and the buffers that the second one allocates and fills.
- `JsonMeaning`, `JsonRender`, `JsonGrammar`: what the text of a configuration file means: a grammar of texts, the
  values that they stand for, and that the parser accepts exactly these texts and builds exactly these values.
- `JsonRelease`, `JsonTree`: the release of the tree, and that what the parser leaves is one. Addresses are
  numbers there, and the fields of the values are arrays.

The preconditions that stand for the program's own assumptions: clock references of a service do not go
back (the program only warns), a buffer of 2048 packets holds what lies between two of them, the table
periods are positive, and writes to the output do not come back short.

Where the code differs from its own documentation, the model follows the code:

- The ring buffer is said to work with unsigned wrap-around, but its size, 15 MiB, does not divide the
  machine word. `RingBuffer.FifteenMegabytes` states the error, and `RingBuffer.QueueForAllCallsIff` that
  dividing the word is exactly what is needed.
- The first packet of every service keeps its old PID (`dvb2dvb.c:299`), so it can be on the PID of a table or
  of another service: `Multiplexer.Mux.TablesPassIff`, `Multiplexer.Mux.ServicesApartIff`.
- A service may use up the PID of the next service's PMT; `Pmt.NextPmtPidTakenIff` says exactly when.
- Prefixes put in front of texts can make a descriptor longer than its length byte can say:
  `Eit.LoopReadBackIff`, `Sdt.NamedReadBackIff`.
- All services share one counter on the EIT PID, but their sections can still be mixed up there:
  `Receiver.ShortEventsReceived`, `Receiver.InterleavedReceivedIff`, `Runs.SentButLost`.
- Two services with references on the same PID meet there with their first packets: `Runs.SharedPidRun`.
- An event section without an event becomes one with an event made from its CRC: `EitSection.NoEventRead`.
- A pair of surrogates in a string of the configuration is combined by setting a bit instead of adding it
  (`json.c:331`), which is wrong for half of them: `JsonPasses.SurrogatesRightIff`. Pairs are not checked to be
  pairs.
- The parser takes more than JSON: a comma behind the last value of a list, a minus without digits, and anything behind
  a zero: `JsonGrammar.AcceptedIff`.

## Model

| member | source | states |
|---|---|---|
| Crc32.PsiCrc32 | crc32.c:78-84 | the loop leaves the CRC of the first datalen bytes, for every start value |
| Crc32.CrcAppend | crc32.c:78-84 | the CRC of a message in two parts is that of the second, started with that of the first |
| Crc32.TableEntry | crc32.c:32-76 | each of the 256 table entries is eight steps of the bit-serial register |
| Crc32.TableRefinesRegister | crc32.c:32-84 | the table-driven loop equals the bit-serial shift register on every message and start value |
| Crc32.RegisterIsRemainder | crc32.c:32-84 | the shift register computes the remainder of a long division over GF(2) |
| Crc32.CrcIsRemainder | crc32.c:78-84 | psi_crc32 is the remainder of message times x^32 plus the start value, divided by the generator polynomial |
| Crc32.BurstDetected | crc32.c:78-84 | two messages that differ only within 32 consecutive bits end in different registers |
| Crc32.CorruptionDetected | psi_read.c:262-264 | any change confined to four consecutive bytes of a message changes its CRC |
| Crc32.ResidueZeroIff | psi_create.c:37-43 | the check of a message and four more bytes gives zero exactly when those are its CRC, big-endian |
| RingBuffer.UsedValue | ringbuffer.c:28-31 | what the unsigned expression is when the pointers have wrapped: the occupancy plus word modulo size |
| RingBuffer.UsedRightIff | ringbuffer.c:28-31 | the expression is the occupancy exactly if tail >= head or the size divides the word |
| RingBuffer.UsedAlwaysRightIff | ringbuffer.c:8-19 | it is right for all pointers exactly if the size divides the word |
| RingBuffer.FifteenMegabytes | ringbuffer.h:7 | with 15 MiB and a 32- or 64-bit word it is 1 MiB too large, modulo the size, once tail < head |
| RingBuffer.WriteSafeIff | ringbuffer.c:80-109 | a write appends exactly the bytes it accepts to the unread ones, and loses none of them, if and only if a test on the pointers and its length holds that a caller can make before the call |
| RingBuffer.ReadSafeIff | ringbuffer.c:33-64 | every read that does not wait returns the oldest unread bytes and leaves the others, exactly under such a test |
| RingBuffer.QueueCallsIfDivides | ringbuffer.c:28-109 | if the size divides the word, every call of every sequence does to the unread bytes what it does to a queue with size - 1 places, and returns the same |
| RingBuffer.BadCallsFail | ringbuffer.c:28-109 | if it does not, filling the ring, reading a byte and writing two does not |
| RingBuffer.QueueForAllCallsIff | ringbuffer.c:8-19 | so a new ring simulates a queue over all sequences of calls exactly if the size divides the word |
| RingBuffer.QueueAppend | ringbuffer.c:93-108 | bytes stored from tail on, across the wrap, are appended to the queue |
| RingBuffer.QueueTake | ringbuffer.c:45-63 | bytes taken from head on, across the wrap, are the front of the queue, and the rest stays |
| RingBuffer.Ring.constructor | ringbuffer.c:21-26 | a new buffer is empty |
| RingBuffer.Ring.GetBytesUsed | ringbuffer.c:28-31 | the unsigned expression; it is the number of bytes in the queue exactly if tail has not wrapped or the size divides the word |
| RingBuffer.Ring.Write | ringbuffer.c:80-109 | stores as many bytes as the shown occupancy leaves room for, one slot kept free, changing no other slot; appends them to the queue if they fit |
| RingBuffer.Ring.TryRead | ringbuffer.c:33-64 | waits unless the buffer shows more than count bytes; then takes exactly the first count bytes off the queue |
| RingBuffer.Ring.Skip | ringbuffer.c:66-78 | drops bytes from the front of the queue |
| RingThreads.StepKeepsInvariant | ringbuffer.c:33-109 | every snapshot, byte copy and publish of either thread keeps the invariant, stale snapshots included |
| RingThreads.RunKeepsInvariant | ringbuffer.c:33-109 | it holds in every state of every interleaving |
| RingThreads.TargetsDisjoint | ringbuffer.c:93-104 | a slot the writer is about to fill holds no unread byte |
| RingThreads.InterleavingsAreSafe | ringbuffer.c:8-19 | in every interleaving one slot stays free, targets and unread bytes are disjoint, and the bytes read are a prefix of the bytes accepted |
| RingThreads.CallsAreSteps | ringbuffer.c:33-109 | any sequence of calls of the sequential ring is a run of the two threads |
| RingThreads.OnePlaceFreeIff | ringbuffer.c:8-19 | in all interleavings fewer bytes are accepted and not yet read than the ring has, if and only if its size divides the word |
| RingThreads.InOrderIff | ringbuffer.c:8-19 | in all interleavings the bytes read are the first bytes accepted, in order, under the same condition |
| Sections.SealedCrc | psi_create.c:476-481 | a section with its CRC, started with 0xffffffff, behind it passes the check |
| Sections.PutCrc | psi_create.c:481-484 | puts the CRC behind the section in the buffer |
| Sections.PacketiseFields | psi_create.c:616-629 | every packet has the PID, consecutive counters modulo 16, and the start indicator exactly on the first |
| Sections.HeaderBits | dvb2dvb.c:228 | PID, counter and start indicator are the fields of the packet header, bit by bit |
| Sections.PacketiseBytes | psi_create.c:616-634 | packet k holds the bytes of the section from offset 184k - 1 on, behind its header, the first one behind a pointer of zero; no error and no priority are indicated, and the rest is filled with ff |
| Sections.PutPacket | psi_create.c:616-634 | one packet: header, pointer field on the first, payload, filling |
| Sections.CopySection | psi_create.c:605-638 | the packets of the section are stored one after the other and its counter moves on by their number |
| Sections.WriteSection | psi_create.c:640-675 | the very same packets are written to the ring buffer, whatever it accepts of each; they are appended to the queue if they fit and the size divides the word |
| Sections.WriteAllQueues | psi_create.c:640-675 | with a size that divides the word, any number of packets that fit are queued whole and in order |
| Reassembly.ProcessSection | psi_read.c:228-272 | the assembly takes up the packet as the reference automaton does; a completed section is delivered only if its CRC is right, and otherwise the current section is untouched |
| Reassembly.FeedAllAppend | psi_read.c:228-272 | feeding packets in two portions is feeding them all |
| Reassembly.SectionDelivered | psi_read.c:228-272 | the packets of a section, fed to an empty assembly, deliver it whole and leave the assembly empty |
| Reassembly.PointerFollowed | psi_read.c:228-272 | a section that fits into its packet is delivered from where the pointer field says it begins |
| Reassembly.StartInside | psi_read.c:228-272 | a start indicator inside a section begins nothing: the packet is taken to continue the section behind its pointer field |
| Reassembly.RoundTrip | psi_create.c:605-675 | packets of any sequence of sections of any tables deliver exactly those of the wanted table with a right CRC, byte for byte and in order |
| Reassembly.DamagedSectionDropped | psi_read.c:262-270 | a valid section damaged in at most four consecutive bytes behind its header is not delivered |
| Descriptors.ParseFront | psi_create.c:184-204 | a descriptor in front of a loop is read first, then the loop |
| Descriptors.FreeMeaning | psi_create.c:192-193 | a descriptor stays exactly if it was there and its tag is neither 0x09 nor 0xc0 |
| Descriptors.FreeAppend | psi_create.c:184-204 | the filter works on every part of a loop by itself, so what stays is in order |
| Descriptors.FreeBytesParse | psi_create.c:184-204 | the copied bytes are a loop again, holding exactly those descriptors in order |
| Descriptors.CopyPmtDescriptors | psi_create.c:184-204 | writes those bytes and returns their number |
| Pmt.RenumberBytesRead | psi_create.c:457-474 | the rewritten stream entries read back as the carried streams, renumbered and filtered, in order |
| Pmt.RebuiltPmtRead | psi_create.c:427-491 | a receiver of the built PMT reads the received programme: new service number, mapped PCR PID, same programme descriptors, and one stream for each received one with a mapped PID, in order: same type, new PID, descriptors without conditional access; table id, lengths, version, section number and CRC are right |
| Pmt.AllocationSound | psi_read.c:186-223 | mapped are exactly the PCR PID and the PIDs of streams of the eleven types that the switch lists, each written out; one to one, to PIDs above the PMT PID |
| Pmt.AllocateInOrder | psi_read.c:186-215 | new PIDs are given out in the order of the entries: a carried stream gets as many more than the first as carried streams precede it |
| Pmt.AllocateOnto | psi_read.c:186-223 | without duplicate PIDs the new PIDs are used without gaps |
| Pmt.ServiceMapCounts | psi_read.c:186-223 | a service gets as many new PIDs as its PMT has carried entries, and one more if none of them has the PCR PID |
| Pmt.OutputPidsDistinct | dvb2dvb.c:471-474 | if every service that is followed by another needs at most 99 new PIDs by that count, no two new PIDs of the output are equal, none is a PMT or SI PID, none the null PID |
| Pmt.NextPmtPidTakenIff | psi_read.c:195-219 | with different stream PIDs, a service takes the next service's PMT PID exactly when its PMT needs a hundred new PIDs or more |
| Pmt.HundredStreamsCollide | psi_read.c:195-219 | a programme with a hundred video streams does |
| Pmt.OnePidEachIff | dvb2dvb.c:471-474 | all new PIDs of all services and their PMT PIDs are different if and only if every service that is followed by another needs at most 99 |
| Pmt.Tables.ProcessPmt | psi_read.c:167-226 | fills the PID map with that allocation and notes the PCR PID; a clear map then has exactly the PCR PID and the PIDs of streams of the eleven types |
| Pmt.Tables.CreatePmt | psi_create.c:427-491 | leaves exactly the rebuilt section, its counter unchanged |
| Pmt.PutStreams | psi_create.c:457-474 | the loop over the entries writes the mapped ones, each length filled in behind |
| Pmt.PutStream | psi_create.c:462-472 | one entry with its filtered descriptors |
| Pmt.MapStreams | psi_read.c:186-215 | the loop over the entries allocates in order; a clear map then has exactly the PIDs of streams of the eleven types |
| Pat.CreatePat | psi_create.c:493-523 | leaves the PAT of all services, sealed |
| Pat.ProcessPat | psi_read.c:55-97 | accepts exactly the one-packet PATs with the expected lengths; the last programme wins, and otherwise the service keeps its values |
| Pat.PatEntryRead | psi_read.c:78-90 | entry k of the packetised PAT is service k |
| Pat.PatReadBack | psi_create.c:493-523 | the packetised PAT has its PID, table id, transport stream id, version and section numbers; it is accepted exactly for up to 42 services, and then every entry is read in order |
| Text.RecodeText | psi_create.c:45-83 | empty text stays empty, other text gets the code page prefix; its length byte is taken modulo 256 |
| Text.RecodeTextSpill | psi_create.c:45-83 | spilled text goes first, then what fits; the rest is kept for the next descriptor |
| Eit.ExtendedSize | psi_create.c:121-131 | a rewritten extended descriptor keeps to 253 bytes and the leftover grows by at most five |
| Eit.TextConserved | psi_create.c:112-133 | the text sent in all extended descriptors, without prefixes, and the leftover are together the text received, in order |
| Eit.SixteenFitIff | psi_create.h:8-11 | sixteen extended descriptors never spill more than the buffer holds, and they can be rewritten if and only if at each one with text its items and the text left over before it keep to 244 bytes |
| Eit.ItemsFit | psi_create.h:8-11 | for that it is enough that the items of each leave five bytes for every extended descriptor before it |
| Eit.ShortEventRead | psi_create.c:98-111 | a rewritten short event with room for the prefixes reads back with the same language, and with its name and its text in their places, each empty if it was and otherwise behind the bytes 10 00 01 |
| Eit.RewriteAllRead | psi_create.c:85-143 | so a whole loop with room for the prefixes becomes, descriptor by descriptor, what it should: short events as above, extended events with everything in front of their text kept and written text marked, all other descriptors, or all if nothing is recoded, as they were |
| Eit.LoopBytesParse | psi_create.c:85-143 | if the prefixes fit every received short event, the written loop is a descriptor loop and reads back as the rewritten descriptors |
| Eit.LoopReadBackIff | psi_create.c:85-143 | it does so only then: a received short event may have at most 255 bytes together with three for each of its texts that is not empty |
| Eit.LongShortEventFails | psi_create.c:98-111 | a short event of 250 bytes whose rewritten form does not come back, because the length byte wraps |
| Eit.CopyEitDescriptors | psi_create.c:85-143 | writes that loop and returns its length; if the prefixes fit, a receiver reads from it the received descriptors, names and texts marked on the networks 0x0001 and 0x0085 and nothing else changed |
| Eit.PutShort | psi_create.c:98-111 | a short event with both texts recoded, its length, modulo 256, filled in last |
| Eit.PutExtended | psi_create.c:112-133 | an extended event with its items kept and its text recoded and spilled |
| EitSection.RewrittenRead | psi_create.c:145-182 | the rebuilt section has the right length and CRC, and a receiver reads from it the same event with the new identifiers, marked free, with the rewritten descriptors, if and only if the prefixes fit every received short event; and then these are the received ones, names and texts marked on the two networks |
| EitSection.ClearedEvent | psi_read.c:262-269 | a section with an event is read the same in its buffer, which is clear behind it |
| EitSection.NoEventRead | psi_create.c:145-182 | a section without an event is rewritten too: a receiver reads an event that was never announced, with the CRC for its number and its date |
| EitSection.RewriteEit | psi_create.c:145-182 | builds that section from the buffer exactly if the table is for this service, and otherwise touches nothing |
| Sdt.RelabelRead | psi_create.c:218-229 | a relabelled service descriptor keeps type and names, in their places, each empty if it was and otherwise behind the bytes 10 00 01 |
| Sdt.ServicesRenamed | psi_create.c:206-241 | of a loop exactly the descriptors with tag 0x48 are left, in order, so relabelled on the two networks and as they were elsewhere |
| Sdt.NamedLoopParse | psi_create.c:206-241 | if the prefixes fit every received service descriptor, the written loop reads back as exactly the service descriptors, relabelled |
| Sdt.NamedReadBackIff | psi_create.c:206-241 | it does so only then |
| Sdt.LongServiceDescriptorFails | psi_create.c:218-229 | a service descriptor of 250 bytes that does not come back |
| Sdt.CopySdtDescriptors | psi_create.c:206-241 | writes that loop and returns its length |
| SdtSection.AllRead | psi_create.c:385-415 | the entries of all services read back in service order |
| SdtSection.BuiltSdtRead | psi_create.c:368-425 | the built SDT has the right table id, length, version, section number and CRC, and a receiver reads from it, in service order, the adapted entries if and only if the prefixes fit all of these; and then these are exactly the received entries for each service: new id, present and following events, same running status, free, names only |
| SdtSection.PutSource | psi_create.c:388-413 | the loop over one service's table adapts the matching entries |
| SdtSection.CreateSdt | psi_create.c:368-425 | leaves that SDT, sealed |
| Pcr.ClockReferenceRead | dvb2dvb.c:230-235 | a reference written with 33 bits of base and nine of extension is read as base times 300 plus extension |
| Pcr.ClockReferenceWritten | dvb2dvb.c:230-235 | and every six bytes are such a reference |
| Pcr.PcrBits | dvb2dvb.c:230 | a packet has a reference exactly if its adaptation field bit is set, the field is longer than five bytes, and its PCR flag is set |
| Pcr.Renumbered | dvb2dvb.c:261-264 | only the PID changes |
| Pcr.DueMonotone | dvb2dvb.c:559-562 | later packets of an interval are not due earlier |
| Pcr.DueAtReferences | dvb2dvb.c:542-562 | the packet shared by two intervals has the same position in both: the ticks of its reference since the start, times the capacity, divided by 27000000 |
| Pcr.DueAfterSeconds | dvb2dvb.c:559-562 | a reference whose base, in units of 1/90000 second, is s seconds after that of the first is due at exactly s times the capacity |
| Pcr.DueIsClose | dvb2dvb.c:559-562 | a position is at most, and by less than capacity/27000000 + 1 bits below, exact linear interpolation |
| Pcr.ComputableIff | dvb2dvb.c:560-561 | all positions of an interval are computed within int64 exactly if elapsed ticks times capacity stay below 2^63 |
| Streams.ReadOnTime | dvb2dvb.c:546-563 | over any input with references that do not go back, the due positions of a service never decrease, and the last is that of the last reference |
| Streams.DuesInterpolate | dvb2dvb.c:542-563 | every packet of a stream, behind its first one, is due below the exact linear interpolation between the two references around it, with none between them, by less than capacity/27000000 + 1 bits |
| Streams.NothingLost | dvb2dvb.c:219-270 | of what a service's input becomes, the packets on the EIT PID are exactly its rewritten sections; the others are the first packet as it was and then, one to one and in order, the packets on mapped PIDs: the same on the new PID, with the same sync byte, the same three flags beside the PID, and all bytes from the fourth on |
| Events.EventsReceived | dvb2dvb.c:246-257 | a receiver of what a service's input becomes gets, of the event sections that arrive whole, exactly those for the service, in order, and nothing else |
| Events.RewrittenPasses | psi_create.c:145-182 | each passes on the received event: same table, version, section numbers, event with its times and running status; the identifiers of the output, marked free, right length and CRC; and if there is room for the prefixes, the received descriptors, names and texts marked on the networks 0x0001 and 0x0085 |
| Streams.InPlace | dvb2dvb.c:219-270 | what an input becomes is its first packet and then, packet by packet, what each contributes: an event section stands where its last packet was |
| Streams.LastReference | dvb2dvb.c:219-270 | the last packet whose position is known is the one with the last reference |
| Streams.StreamPids | dvb2dvb.c:259-268 | after its first packet a service is only on the EIT PID and on PIDs given out for it |
| Streams.ReadNext | dvb2dvb.c:219-270 | what can be read to the end can be read packet by packet |
| Services.Service.constructor | dvb2dvb.c:467-476 | a service that has read nothing, with a buffer of 2048 packets |
| Services.Service.SyncToPcr | dvb2dvb.c:272-305 | skips to exactly the first packet with a reference on no table PID, and keeps it unchanged; the PMT and SDT sections that pass by are collected as the reference automaton does |
| Services.Service.EndsWithReference | dvb2dvb.c:541-565 | the last packet in the buffer is the one with the last reference, renumbered unless it is the very first |
| Services.Service.TakeEvent | dvb2dvb.c:246-257 | a packet on the EIT PID is replaced in the buffer by the packets of the section it completes, if that is for this service |
| Services.Service.StorePacket | dvb2dvb.c:225-268 | the buffer grows by exactly what the packet contributes: one on a mapped PID is stored the same but for its PID |
| Services.Service.ReadToNextPcr | dvb2dvb.c:219-270 | the buffer goes on by one interval, up to the next reference and no further |
| Services.Service.SetPositions | dvb2dvb.c:559-563 | every buffered packet gets its interpolated position |
| Services.Service.Refill | dvb2dvb.c:541-565 | only the last packet is kept, then an interval is added: at least two packets, positions known, nothing sent lost or repeated |
| Services.Service.Send | dvb2dvb.c:606-620 | the next packet of the stream leaves, with the shared counter if it is on the EIT PID |
| Schedule.LatenessBound | dvb2dvb.c:595-602 | if the packets due in any window exceed its capacity by at most B, every item starts at or after its position and less than B packets after it |
| Schedule.PaddingOnlyWhenIdle | dvb2dvb.c:595-602 | every packet between two items is the null packet, 47 1f ff 10 and filling, begins before all positions still to come, and padding overshoots by less than one packet |
| Schedule.ItemInOutput | dvb2dvb.c:604-650 | an item's packets are found in the output at its position, which is the number of bits in front of them |
| Schedule.OutputLength | dvb2dvb.c:650 | output_bitpos counts exactly what was written |
| Merge.ChoiceIsEarliest | dvb2dvb.c:567-593 | nothing is due before the item chosen, over all services and all table clocks; a service is chosen only before every clock |
| Merge.UrgentIsFirst | dvb2dvb.c:567-573 | the chosen service has the earliest head |
| Merge.DueOrder | dvb2dvb.c:567-593 | over any run the chosen positions never decrease |
| Merge.LegalIsOrdered | dvb2dvb.c:539-650 | every run sends in order of the positions, each item as soon as possible |
| Merge.LegalIsOnTime | dvb2dvb.c:539-650 | so the lateness bound holds for every run |
| Load.LoadIsBounded | dvb2dvb.c:539-650 | no run loads the channel more, in any window, than the positions of the inputs and the periods and sizes of the tables say |
| Load.CarriedIsOnTime | dvb2dvb.c:539-650 | so if services and tables together exceed no window by more than B packets, a hypothesis about the inputs alone, every item of every run starts at or after its position and less than B packets after it |
| Merge.ExactRepetition | dvb2dvb.c:587-594 | when a service packet due at d is sent, PAT, PMT, SDT and NIT have each been sent exactly d/period + 1 times |
| Merge.ItemsBefore | dvb2dvb.c:622-643 | besides packets of services exactly that many items precede it, so tables cannot hold a service back |
| Merge.SentInOrder | dvb2dvb.c:539-619 | what was sent of a service is the beginning of its stream, each packet once, in order, at its position, with at most the EIT counter changed |
| Merge.LegalContinues | dvb2dvb.c:539-565 | reading more of the inputs changes nothing that was sent |
| Merge.LegalAppend | dvb2dvb.c:539-650 | a run followed by the item the rule demands is a run |
| Multiplexer.Mux.constructor | dvb2dvb.c:526-538 | the loop starts with empty output, clocks at zero and every service synchronised |
| Multiplexer.Mux.Refill | dvb2dvb.c:540-566 | every service gets a packet whose position is known, across all buffers, and the run so far stays as it is |
| Multiplexer.Mux.Select | dvb2dvb.c:567-593 | picks exactly the item the rule demands, ties included |
| Multiplexer.Mux.Pad | dvb2dvb.c:595-602 | adds just the null packets needed to reach the position |
| Multiplexer.Mux.Emit | dvb2dvb.c:604-649 | sends the item's packets and moves on exactly its clock and its counters |
| Multiplexer.Mux.WritePmts | dvb2dvb.c:627-632 | the PMTs of all services, each on its PID with its counter |
| Multiplexer.Mux.Step | dvb2dvb.c:539-658 | one turn of the loop appends exactly the item that has to come next |
| Multiplexer.Mux.Run | dvb2dvb.c:539-658 | after any number of turns the output is that of a legal trace, and output_bitpos is the number of its bits |
| Multiplexer.Mux.EndToEnd | dvb2dvb.c:539-619 | what was sent of each service is the beginning of the reading of its input, each packet at its position; and that reading is the first packet and then the contributions of the others, each in its place: the packets on mapped PIDs one to one, changed in nothing but the PID, and the rewritten event sections |
| Multiplexer.Mux.PositionsInterpolate | dvb2dvb.c:542-619 | every packet that was sent, but the first of a service, was due where linear interpolation between the references around it puts it |
| Multiplexer.Mux.TablesPass | psi_create.c:660-661 | after any run check_cc finds no gap on the PID of a table, over all repetitions, if no service had its references there |
| Multiplexer.Mux.TablesPassIff | dvb2dvb.c:299 | otherwise, once the table was repeated, it finds none if and only if the first packets of the services that had their references there have the counters expected of them and bring the counter round |
| Multiplexer.Mux.TablesPassIfNoneCollides | dvb2dvb.c:299 | with fewer than sixteen services, whose first packets have payloads, that is if and only if no service had its references there |
| Multiplexer.Mux.ServicesApartIff | dvb2dvb.c:259-299 | no two services ever have a packet on the same PID, but for the EIT PID, if and only if no two had their references on the same PID and none has read a packet that is moved to the PID on which another had its references |
| Streams.StreamHasPid | dvb2dvb.c:259-299 | a service has a packet on another PID exactly if its references were there or a packet it has read is moved there |
| Runs.SharedPidRun | dvb2dvb.c:299 | two services with references on PID 200, read and sent by a legal run: both first packets are there, and check_cc reports a gap |
| Multiplexer.Mux.TablesReceived | dvb2dvb.c:622-643 | a receiver that collects sections on the PID of a table gets it exactly as often as it was sent, and nothing else |
| Multiplexer.Mux.PmtCoversService | psi_create.c:427-491 | behind its first packet a service is only on PIDs that its rebuilt PMT names to a receiver, and on the EIT PID |
| Multiplexer.Mux.EitPasses | dvb2dvb.c:612-615 | nor on the EIT PID shared by all services |
| Multiplexer.NotProduced | psi_read.c:186-223 | no packet is moved to the PID of a table |
| Multiplexer.ServiceMapUsable | dvb2dvb.c:259-264 | the map made from a PMT suits the stream reader exactly if neither the PCR nor a carried stream is on the EIT PID |
| Continuity.CheckCc | dvb2dvb.c:78-100 | updates the counter of the packet's PID and reports a gap exactly as the rule says |
| Continuity.GapIff | dvb2dvb.c:85-99 | a gap is reported exactly if a counter was seen before, the bit read as the discontinuity indicator is not set, and the counter is neither one more after a payload nor the same without |
| Continuity.ConsecutiveIsQuiet | dvb2dvb.c:78-100 | consecutive counters on a PID are never reported, whatever comes between |
| Firsts.OnTablePid | dvb2dvb.c:622-643 | on the PID of a table a run has its first repetition, then the first packets of services on that PID in service order, then all other repetitions |
| Firsts.TableIsConsecutive | psi_create.c:623-661 | without such first packets the counters there are consecutive modulo 16 over the whole output |
| Firsts.QuietIff | dvb2dvb.c:78-100 | a run with a second repetition passes check_cc on that PID if and only if the first packets do, by themselves, after the last counter of the table |
| Firsts.OneFirstPassesIff | dvb2dvb.c:78-100 | a single first packet does only if it has no payload and the current counter or the bit read as the discontinuity indicator |
| Firsts.ClashIsReported | dvb2dvb.c:299 | a legal run, NIT, SDT, PMT, PAT, first packet on PID 100, PMT again, on which a gap is reported |
| Receiver.TableReceived | psi_read.c:228-272 | reassembling everything on the PID of a table gives exactly its repetitions |
| Receiver.PmtListsMoved | psi_create.c:427-491 | the PMT made for a programme names, to a receiver, exactly the PIDs its packets are moved to |
| Receiver.WholeSectionsReceived | psi_read.c:228-272 | event sections sent one behind the other on the shared PID, whatever their counters, are all received, in order |
| Receiver.ShortEventsReceived | dvb2dvb.c:606-620 | if every event section fits into one packet, a receiver of the merged output gets the sections of all services, in the order in which they were sent |
| Receiver.InterleavedAreMixed | psi_read.c:228-272 | if the first packet of one section comes between the two of another, a receiver gets from the four packets exactly the mixture of the two sections if its CRC is right, and nothing else |
| Receiver.InterleavedReceivedIff | psi_read.c:228-272 | so the interrupted section is received if and only if the bytes taken for the rest of it are the rest of it |
| Receiver.InterleavedAreLost | psi_read.c:262-264 | if that rest has at most four bytes and they differ, the CRC of the mixture is wrong |
| Runs.InterleavedRun | dvb2dvb.c:606-620 | for any two sections of two packets, a legal run of two services that sends both in full, in which a receiver gets only their mixture, if its CRC is right |
| Runs.SentButLost | dvb2dvb.c:606-620 | with two concrete sections that have right CRCs, it gets neither |
| Continuity.EitIsConsecutive | dvb2dvb.c:612-615 | so are those on the EIT PID |
| JsonPasses.TurnAdvances | json.c:281-936 | every turn keeps the flags and the stack of values consistent, and a pass cannot loop |
| JsonPasses.NumberRead | json.c:736-841 | if the first pass succeeds, a number ends for it where the cruder skip of the second pass stops |
| JsonPasses.PassesAgree | json.c:261-936 | if the first pass succeeds, so does the second, with the same values, texts, names and parents in the same order |
| JsonPasses.Utf8RoundTrip | json.c:334-371 | the bytes written for a code point are its UTF-8 encoding: it is read back from them |
| JsonPasses.SetBit | json.c:331 | combining with OR, as on 32-bit words, keeps the sixteen low bits and the bits above bit 16, and sets bit 16 |
| JsonPasses.SurrogatesRightIff | json.c:331 | a pair of surrogates is combined to its code point if and only if bit 6 of the first one is not set |
| JsonPasses.EscapedPairIff | json.c:305-371 | so an escaped pair becomes the UTF-8 of its code point exactly then |
| JsonPasses.SurrogatesWrong | json.c:331 | U+20000, written as a pair, becomes U+10000 |
| JsonBuffers.EveryTurnFits | json.c:281-936 | what a turn does to the values is what the values so far can take: a name only when the object has as many children as names, a child only after a name, text only into a string that has not ended |
| JsonBuffers.RunFits | json.c:261-936 | so a pass that succeeds leaves nothing open, and every object with as many names as children |
| JsonBuffers.StaysInside | json.c:388-425 | at every event of a pass that succeeds, what it stores lies within what the whole text was counted to need: the entry of a name, the place of a child, the bytes of a text or name and the zero behind them |
| JsonBuffers.Parser.Measure | json.c:261-936 | the first pass accepts exactly the texts of the automaton, and has then counted the children, text bytes and name bytes of every value |
| JsonBuffers.Node.Allocate | json.c:110-166 | a value gets buffers of exactly the sizes counted for it |
| JsonBuffers.Node.EndName | json.c:399-422 | the entry of a name is filled in, a zero goes behind it, and the next name goes directly behind that |
| JsonBuffers.Parser.Fill | json.c:261-936 | the second pass never fails, stores everything inside the buffers, and they end up holding the document |
| JsonBuffers.NamesSideBySide | json.c:399-422 | the names of an object lie side by side in the order of its entries, from the beginning of their area to its end |
| JsonBuffers.Parser.Parse | json.c:261-942 | a text is accepted if and only if the first pass succeeds, and then every value has the text, names and children that the events describe, in buffers filled to the last byte |
| JsonMeaning.ValueBuilds | json.c:261-936 | the events of a written value build the document of what is meant by it, in any place where a value can stand |
| JsonMeaning.PairMeans | json.c:319-332 | an escaped pair means its code point, if bit 6 of its first half is not set |
| JsonMeaning.QuotedMeans | json.c:281-430 | every string without a zero can be written so that it is what is meant: as it is, with a backslash in front of quotes and backslashes |
| JsonRender.PiecesLead | json.c:281-430 | in a string, a character stands for itself, the escapes b, f, n, r and t for 8, 12, 10, 13 and 9, other letters for themselves, and a number for the UTF-8 of its code point |
| JsonRender.ValueLeads | json.c:281-936 | wherever a value is wanted, its text leads to its events, at any depth and with any white space |
| JsonRender.WrittenIsRead | json.c:261-936 | whatever value is written, with any escapes and white space, the text is accepted, and the document that is built has exactly the values, texts, names and nesting that are meant |
| JsonGrammar.WritingOf | json.c:261-936 | every text that is accepted is a writing of some value |
| JsonGrammar.AcceptedIff | json.c:261-936 | so the parser accepts exactly the texts of a grammar: JSON, but also a comma behind the last value of a list, a number without digits behind a minus, and anything behind a zero |
| JsonGrammar.JsonParse | json.c:949-953 | json_parse accepts exactly those texts, and then the values hold exactly what is meant by the text, however it is taken to be written |
| JsonRelease.Descend | json.c:970-989 | going down counts one child off its parent, and leaves what is still to be freed as it was |
| JsonRelease.Ascend | json.c:998-1001 | going up leaves what is still to be freed without the value and its buffer, at the parent the path says |
| JsonRelease.Heap.Free | json.c:955-1003 | without a stack the loop ends and has freed the buffers and values of the tree in post-order, last child first, and nothing else |
| JsonRelease.EachOnce | json.c:955-1003 | that order frees every value of the tree and every buffer exactly once, and nothing else |
| JsonRelease.ChildrenFirst | json.c:955-1003 | and every value, at any depth, after everything in it and after its own buffer |
| JsonTree.BuildGrown | json.c:860-932 | whatever is parsed, children know their parent and are listed by age, and every finished value is in its parent |
| JsonTree.TreeDistinct | json.c:955-1003 | so the values are a tree: none is in it twice |
| JsonTree.AllInTree | json.c:955-1003 | and all values of an accepted text are in the tree of the first one |
| JsonTree.ParseAndFree | json.c:238-1003 | parsing and then releasing: the tree that the second pass leaves is what the release expects, and every value and every buffer of the text is given back exactly once, and nothing else |

## Left out

- Services.Service.TakeEvent: the counter in the packets of a rewritten event section starts at zero; the program leaves it uninitialised and overwrites it on output.
- Reassembly.ProcessSection: requires the table header to lie inside the first packet and a length of at most 4096; a start indicator inside a section is handled as the program does, but the round trip does not contain one.
- Text.RecodeText: what is built must fit the buffer it is written to; the program does not check that.
- EitSection.RewriteEit: keeps the first event only, as the program does.
- Eit.CopyEitDescriptors: text left over at the end of a loop is dropped, as in the program.
- Pat.CreatePat: the clear beyond the end of the section's buffer is modelled as clearing the buffer.
- Load.CarriedIsOnTime: the capacity formula and the conversion of periods to bits are not modelled; capacity and periods are given.
- JsonGrammar.JsonParse: values of numbers, line and column messages, comments (never enabled), the byte order mark, the limits on sizes, failing allocations and the clean-up after a failed first pass are not modelled; an allocation of nothing is one of size zero; reading one character behind the text is taken to give a zero.
- JsonBuffers.Node.Allocate: entries and names of an object are two buffers instead of two parts of one, and a value is known by its number.
- JsonTree.ParseAndFree: the fields of the nodes are copied into the arrays that the release works on; the length of a string, at which it does not look, is left at zero there.
- The NIT and AIT builders: the NIT's inner length is not the standard's, and the AIT is never set up, so the fifth clock of the output loop does not exist here. The NIT is sent as a section of unknown contents.
- Wrap-around of clock references, lost and duplicate packets: the program does not handle them.
- Services.Service.Refill: requires that the whole input of the service can be read: references do not go back, what lies between two of them fits the buffer, and the descriptors of event sections for the service can be rewritten.
- `check_cc` on the inputs: it only reports, and changes nothing that is sent.
- Reading the SDT for the service name and type (`process_sdt`).
- Threads and network reception: the packets that arrive are a sequence, and what is written to the device is a growing sequence.
- Configuration fields, start-up waiting, reporting and conversions for display.
