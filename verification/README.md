# linuxtv-dvb-apps: protocol and format proofs

A Dafny model of the parts of the DVB utilities whose correctness depends on state carried over many calls, with
proofs about every input and every run. Where the program changes things in place (connection queues, reassembly
buffers, linked lists, line buffers) the model is a class or a method on an array; each such method is specified by a
function, and the theorems are about those functions.

`dafny verify dfyconfig.toml` checks the whole project.

| Part | Files | Main results |
|---|---|---|
| CRC and sections | `Crc32`, `Section`, `PsiTable` | the table loop is polynomial long division; four-byte bursts are detected; table tracking |
| Section reassembly | `SectionBuf`, `SectionForm`, `Demux` | independence of fragmentation; sections cut into transport packets are recovered exactly, also after errors |
| EN 50221 framing | `Asn1`, `Framing` | framing and parsing are inverse; APDU splitting delivers the longest well-formed run |
| EN 50221 transport layer | `Transport`, `TransportRuns`, `TransportAnswers`, `TransportLayer` | state machine, chain reassembly, conservation and pacing of the send queue; what each answer, report and change of state is caused by, byte by byte |
| EN 50221 session layer | `Sessions`, `SessionRuns`, `SessionAnswers`, `CrossLayer`, `SessionLayer` | session safety over runs, its link to the transport layer, and the exact cause of each move, call and answer |
| MMI and CA applications | `Mmi`, `CaPmt`, `CaFormat` | defragmentation as a map; CA_PMT printing, moving and reading |
| Teletext page cache | `Pages`, `CacheModel`, `CacheStores`, `DlList`, `CacheSearch`, `Cache` | refinement of a map, newest-first order, complete and terminating search; after any run the cache holds the merge of what was received |
| Channel files | `ConfigText`, `Zapchannel`, `ZapTables`, `ZapRoundTrip`, `ZapParser` | printing and parsing are inverse, with the exact condition |

## How the protocol is modelled

Each call of the host, each incoming TPDU and each visit of the poll loop to a connection is one atomic step. Whether
the link takes a write, whether a poll is due and whether a response is late are inputs of the step. What is written to
the link and what is reported upwards are the events that a step returns, in order; the theorems about runs are
statements about the events of all steps. `Transport` and `Sessions` define the steps, `TransportLayers` and
`SessionLayers` carry them out on objects. `TransportAnswers` and `SessionAnswers` say of any step, without those
definitions, which bytes on the link cause which message, report and state.

## Where the code differs from what it promises

- `section_buf_reset` keeps `wait_pdu`, though its header file says that the buffer will wait (`ResetWaitsIff`).
- A chain that ends in an empty T_DATA_LAST is dropped, not delivered (`EmptyLastLosesChain`); reassembly is exact
  if and only if that has not happened (`ChainsReassembled`).
- `send_data` cuts the length field to 16 bits, so that 65535 bytes and more are framed wrongly (`ParseFrameIff`).
- A closed connection ends the sessions of all slots that use the same connection number (`CloseEndsOtherSlotIff`).
- Two ways out of the active state do not notify the session layer: a deletion by the host, and one by the module
  whose reply cannot be written. A session outlives its connection if and only if one of these happens to a connection
  with a session in use (`RunLinkedIff`, `StepLinkedIff`).
- A queued message that the link refuses is dropped without setting `tx_time`, so that the poll loop may write again
  before the module has answered (`RefusedMessageUnpaced`); all its other writes are paced (`LoopWritesPaced`).
- A session that becomes active while no session callback is registered is never announced (`StackStepHonestIff`).
- Create and close responses of the module are read at the offsets that the code uses, which are not those of the
  responses that the code itself writes.
- A page search that goes down from a subpage number above those stored skips the lower subpages of that page, which
  then come last (`StartsThereIff`).
- A page stored under ANY_SUB is found by no search once another subpage of its number is stored (`PutHides`). Every
  cached page can be found if and only if each page under ANY_SUB is the newest of its number (`AllFindableIff`), and
  then a search is complete (`SearchedFirst`, `SearchFinds`).
- The search for the colon behind a channel name takes the NUL at the end of the line for one. So the text of a
  comment is read as the fields of a channel (`CommentIsRead`), unless a colon stands in front of the comment or so much
  text that it is no name (`CommentIgnoredIff`). Likewise a last line that is a name without newline, comment and colon
  is read with what an earlier, longer line has left in the buffer (`StaleIsRead`, `StaleIgnoredIff`).
- Error reduction relies on a page without counted errors having no bad character; `MergeLosesIff` says when a
  merge would lose one otherwise.

## Model

| member | source | states |
|---|---|---|
| `Crc32.TableIsShift` | lib/libucsi/crc32.c:23-89 | every table entry is its index byte put through eight shifts of the bit register |
| `Crc32.FoldIsSerial` | lib/libucsi/crc32.h:43-52 | the table loop over a buffer is the bit register over its bits |
| `Crc32.CrcIsRemainder` | lib/libucsi/crc32.h:43-52 | the loop computes the remainder of polynomial long division by 0x04C11DB7, for every start value and buffer |
| `Crc32.TrailerCancels` | lib/libucsi/crc32.h:43-52 | a CRC over a buffer and a 32-bit trailer is zero exactly when the trailer is the CRC of the buffer |
| `Crc32.BurstDetected` | lib/libucsi/crc32.h:43-52 | two messages that differ only inside a burst of at most 32 bits have different CRCs |
| `Crc32.WindowDetected` | lib/libucsi/crc32.h:43-52 | two buffers of equal length that differ only inside four consecutive bytes have different CRCs |
| `Crc32.Crc32` | lib/libucsi/crc32.h:43-52 | the loop itself, returning the remainder of long division |
| `Section.CheckIff` | lib/libucsi/section.h:130-147 | the CRC of a whole section is zero exactly when its last four bytes are the big-endian CRC of the rest, also for sections too short to have a trailer |
| `Section.CorruptionRejected` | lib/libucsi/section.h:130-147 | a change confined to four consecutive bytes is never accepted |
| `Section.EncodedPassesCheck` | lib/libucsi/section.h:180-204 | encoding with a new CRC changes no byte but the two swapped ones and the trailer, and the result passes the check |
| `Section.EncodeReceiveRoundTrip` | lib/libucsi/section.h:101-204 | what was encoded is accepted by codec, CRC check and decode, and comes back in host order |
| `Section.CodecAcceptsIff` | lib/libucsi/section.h:101-121 | a buffer whose second and third byte hold four flag bits and the number n is accepted by the codec exactly when it has n + 3 bytes, whatever its table id and flags |
| `Section.ReceivedIff` | lib/libucsi/section.h:101-171 | such a buffer is received exactly when its size is right, its first flag is set and its CRC from 0xffffffff is zero; then its length and its table id extension are in host order and the rest is as it came |
| `Section.EncodedOnWire` | lib/libucsi/section.h:180-204 | what is encoded goes out with both 16-bit header fields high byte first, its payload, and a trailer that makes its CRC from 0xffffffff zero |
| `Section.SectionCodec` | lib/libucsi/section.h:108-121 | swaps the header in place; the length field must agree with the buffer |
| `Section.SectionCheckCrc` | lib/libucsi/section.h:130-147 | zero exactly when the trailer is right; the buffer is left as it was |
| `Section.SectionExtDecode` | lib/libucsi/section.h:157-171 | accepts exactly sections with the syntax indicator and, if asked, a right CRC; on failure the buffer is left as it was |
| `Section.SectionExtEncode` | lib/libucsi/section.h:180-204 | the encoded buffer, or the buffer unchanged when the syntax indicator is missing |
| `Section.Receive` | lib/libucsi/section.h:101-171 | codec and decode as a receiver calls them |
| `PsiTable.PsiTableState.SectionExtUseful` | lib/libucsi/section.h:223-247 | what the call returns and does to the table state |
| `PsiTable.PsiTableState.Reset` | lib/libucsi/section.h:211-214 | a reset sets only the version, to one that no section has |
| `PsiTable.RunAcceptsWanted` | lib/libucsi/section.h:211-247 | a run from a reset accepts exactly the wanted sections: a first section of another version, or the successor of the last accepted one unless that completed its table |
| `PsiTable.RunInBlocks` | lib/libucsi/section.h:211-247 | accepted sections form one block 0, 1, 2, ... for each version change; a block is complete exactly when it reaches last_section_number, then accepts nothing more; next_section_number stays at most 256 |
| `PsiTable.CarouselCollected` | lib/libucsi/section.h:223-247 | tuning into a repeating table anywhere collects each of its sections once, in order |
| `SectionBufs.SectionBuf.Init` | lib/libucsi/section_buf.c:28-39 | initialisation, and -EINVAL for a size below the header |
| `SectionBufs.SectionBuf.Reset` | lib/libucsi/section_buf.h:62-67 | empties the buffer and keeps wait_pdu |
| `SectionBufs.ResetWaitsIff` | lib/libucsi/section_buf.h:56-67 | after a reset the buffer waits for a start indicator exactly when it waited before |
| `SectionBufs.SectionBuf.Remaining` | lib/libucsi/section_buf.h:104-107 | the bytes still missing: of the header until it is there, of the announced size from then on, also after an oversized header |
| `SectionBufs.SectionBuf.AddFragment` | lib/libucsi/section_buf.c:41-110 | what one call does to the accumulated bytes, what it consumes and its status |
| `SectionBufs.SectionBuf.AddTransportPayload` | lib/libucsi/section_buf.c:112-173 | the same for a payload with or without the start indicator |
| `SectionBufs.AddSplits` | lib/libucsi/section_buf.c:41-110 | adding a fragment whole or in two pieces gives the same buffer, status and total consumed, for every reachable buffer and every split |
| `SectionBufs.AddPayloadProgress` | lib/libucsi/section_buf.c:112-173 | a call on an incomplete section and a non-empty payload consumes between one byte and all of it; status 1 means complete |
| `SectionForms.PsiIsSection` | lib/libucsi/section_buf.c:84-90 | a header with any four flag bits announces the size of the body behind it, and the buffer takes the section if and only if that fits |
| `SectionForms.SectionHasParts` | lib/libucsi/section_buf.c:84-90 | every section that a buffer can complete has a table id other than 0xff, four flag bits and a body of at most 4095 bytes |
| `SectionForms.OversizeRefused` | lib/libucsi/section_buf.c:87-90 | a section that announces more than the buffer holds is refused with -ERANGE once its header is there, and no more than the header is kept |
| `SectionForms.PointerCounts` | lib/libucsi/section_buf.c:138-160 | a pointer field completes the section under way if and only if it counts exactly the missing bytes; otherwise that section is dropped and the buffer waits |
| `SectionForms.PointerRefusedIff` | lib/libucsi/section_buf.c:125-137 | -EINVAL is returned if and only if a packet with the start indicator has no pointer field or one that leads outside, and then the packet is skipped and the buffer waits |
| `Demux.Receive` | test/libucsi/testucsi.c:264-284 | the receiving loop over a stream of packets, which terminates |
| `Demux.StreamRecovered` | lib/libucsi/section_buf.c:41-173 | for sections given by table id, flags and body: from any point of the stream the loop emits the section under way and all that follow, whole and in order |
| `Demux.SectionsRecovered` | lib/libucsi/section_buf.c:41-173 | any list of such sections that fit the buffer, laid out in packets with pointer fields and stuffing (section 2.4.4 of ISO/IEC 13818-1), comes out as exactly that list, also when the receiver tunes in during an unknown section |
| `Demux.RecoversAfterFailure` | lib/libucsi/section_buf.c:112-173 | whatever went wrong in a packet or before it, every section that begins in a later packet is recovered |
| `Demux.PacketiseRoundTrip` | lib/libucsi/section_buf.c:41-173 | cutting such sections into packets of any size of at least two bytes, and demultiplexing, are inverse |
| `Asn1.Encode` | lib/libdvben50221/asn_1.c:56-83 | writes the shortest length field in place, or nothing when there is no room |
| `Asn1.DecodeField` | lib/libdvben50221/asn_1.c:26-83 | decoding an encoded length gives it back, whatever follows |
| `Asn1.FieldOfDecoded` | lib/libdvben50221/asn_1.c:26-83 | a decoded field is the one that would be written exactly when no shorter one was possible |
| `Asn1.DecodeIff` | lib/libdvben50221/asn_1.c:26-54 | a length is one byte below 0x80, one byte behind 0x81, or two bytes behind 0x82 with the high one first |
| `Framing.BuildDataLast` | lib/libdvben50221/en50221_transport.c:595-679 | the message built from a vector of pieces is the frame of their concatenation |
| `Framing.ParseFrameIff` | lib/libdvben50221/en50221_transport.c:574-586 | a frame is read back exactly when its data is shorter than 65535 bytes, since the length field is cut to 16 bits |
| `Framing.FrameBytes` | lib/libdvben50221/en50221_transport.c:595-679 | a TPDU on the link is its tag, the shortest length of what follows, its connection id and its data |
| `Framing.FramingInverts` | lib/libdvben50221/en50221_transport.c:832-945 | any list of such TPDUs sent back to back is parsed as exactly that list |
| `Framing.SplitInverts` | lib/libdvben50221/en50221_session.c:829-865 | any concatenation of well-formed APDUs is delivered exactly |
| `Framing.SplitMaximal` | lib/libdvben50221/en50221_session.c:829-865 | what is delivered is the longest run of well-formed APDUs at the front of the data, and all of it exactly when the data is such a run |
| `Framing.ApduIff` | lib/libdvben50221/en50221_session.c:829-850 | three bytes, a length field and a body are an APDU exactly when the body has that length |
| `Framing.DeliverApdus` | lib/libdvben50221/en50221_session.c:829-865 | the APDUs that the split of the data specifies, and whether all of it was used |
| `Transport.ProcessDispatches` | lib/libdvben50221/en50221_transport.c:832-945 | processing a row of frames handles exactly the framed TPDUs, in order, up to the first that fails |
| `TransportRuns.StepFares` | lib/libdvben50221/en50221_transport.c:283-1296 | what every step of every kind does to the chain, the queue, the wait flag, the state and the link writes of every connection |
| `TransportRuns.ChainsInUse` | lib/libdvben50221/en50221_transport.c:461-469 | a chain buffer exists only on a connection in use, so that a reused connection never delivers bytes of its predecessor |
| `TransportRuns.ChainsReassembled` | lib/libdvben50221/en50221_transport.c:1106-1211 | in every run the data bytes accepted since a connection came into use are those delivered followed by the chain buffer, if and only if no empty T_DATA_LAST has ended a non-empty chain |
| `TransportRuns.NonEmptyLosesNothing` | lib/libdvben50221/en50221_transport.c:1144-1211 | with non-empty last fragments no chain is lost |
| `TransportRuns.EmptyLastLosesChain` | lib/libdvben50221/en50221_transport.c:1199-1208 | an empty T_DATA_LAST drops the chain without delivering it, and reports no error |
| `TransportRuns.QueueConserved` | lib/libdvben50221/en50221_transport.c:425-472 | until the slot is destroyed, the messages queued on a connection are those handed to the link, in order, followed by those in the queue |
| `TransportRuns.LoopWritesPaced` | lib/libdvben50221/en50221_transport.c:425-486 | between two writes of the poll loop on a connection, a step clears its wait: an incoming TPDU on it, or the end of the slot; the one premise is that the first write is not a message that the link refuses |
| `TransportRuns.RefusedMessageUnpaced` | lib/libdvben50221/en50221_transport.c:425-486 | after a message that the link refuses the next visit writes again at once if and only if another message is queued, or the connection is active and a poll is due |
| `TransportRuns.DeletionsLast` | lib/libdvben50221/en50221_transport.c:425-472 | in every run a T_DELETE_T_C is queued only on a connection whose deletion is queued, as its last message |
| `TransportRuns.RunMoves` | lib/libdvben50221/en50221_transport.c:283-1296 | in every run a connection moves only from idle to creation, from there to active, from active or in deletion to deletion queued, from there to in deletion, and from anywhere to idle |
| `Transport.ReadIsRun` | lib/libdvben50221/en50221_transport.c:832-945 | what a read of the device does is a run of incoming TPDUs: the same slot, events and last error |
| `Transport.PollRoundIsRun` | lib/libdvben50221/en50221_transport.c:425-507 | a round of the poll loop over a slot is a run of visits |
| `Transport.ReadStopsAtError` | lib/libdvben50221/en50221_transport.c:832-945 | its steps are the TPDUs that parse, in order; a step that fails is the last, and only such a one or malformed data ends the read early |
| `Transport.RoundStopsAtError` | lib/libdvben50221/en50221_transport.c:425-507 | a round visits the connections in order; a visit that fails is the last, and only such a one ends the round early |
| `TransportAnswers.FetchedIff` | lib/libdvben50221/en50221_transport.c:1213-1257 | 81 01 j is answered on connection j if and only if a one-byte T_SB with its top bit set comes in on it while it is active |
| `TransportAnswers.FetchPaced` | lib/libdvben50221/en50221_transport.c:425-486 | after a T_RCV that the link took, the poll loop writes nothing on the connection before its wait has been ended |
| `TransportAnswers.QuietStatusSends` | lib/libdvben50221/en50221_transport.c:1213-1257 | a T_SB without the bit is not answered and ends the wait, so that the next visit writes the head of the queue, or polls if there is none and a poll is due |
| `TransportAnswers.DeletionAnsweredIff` | lib/libdvben50221/en50221_transport.c:976-1020 | 85 01 j is answered if and only if T_DELETE_T_C comes in on an active connection or one in deletion |
| `TransportAnswers.RequestRefusedIff` | lib/libdvben50221/en50221_transport.c:1042-1070 | 77 02 j 01 is answered if and only if T_REQUEST_T_C comes in while no connection but 0 is idle |
| `TransportAnswers.RequestOfferedIff` | lib/libdvben50221/en50221_transport.c:1042-1104 | 87 02 j n is answered if and only if T_REQUEST_T_C comes in and n is the first idle connection but 0 |
| `TransportAnswers.OfferOpenedIff` | lib/libdvben50221/en50221_transport.c:1042-1104 | 82 01 n follows on connection n if and only if the link took that offer |
| `TransportAnswers.AnswersKnown` | lib/libdvben50221/en50221_transport.c:832-1257 | nothing else is ever answered |
| `TransportAnswers.DataReportedIff` | lib/libdvben50221/en50221_transport.c:1144-1211 | data is reported if and only if a non-empty T_DATA_LAST comes in on an active connection, and it is the chain followed by the bytes of that TPDU |
| `TransportAnswers.OpenReportedIff` | lib/libdvben50221/en50221_transport.c:947-974 | a connection is reported open if and only if the module confirms its creation |
| `TransportAnswers.OfferReportedIff` | lib/libdvben50221/en50221_transport.c:1042-1104 | a connection of the module is reported if and only if both answers to its request were written |
| `TransportAnswers.CloseReportedIff` | lib/libdvben50221/en50221_transport.c:976-1020 | a connection is reported closed if and only if the module deletes it while it is active or in deletion, and the answer was written |
| `TransportAnswers.SlotEndReportedIff` | lib/libdvben50221/en50221_transport.c:283-331 | the end of a slot is reported if and only if the host destroys it |
| `TransportAnswers.ReportsKnown` | lib/libdvben50221/en50221_transport.c:832-1257 | a step reports at most once, as its last event |
| `TransportAnswers.PolledIff` | lib/libdvben50221/en50221_transport.c:447-486 | a0 01 j is written by the poll loop if and only if the connection is active, does not wait, has nothing to send and is due |
| `TransportAnswers.HeadSentIff` | lib/libdvben50221/en50221_transport.c:425-446 | the head of a queue is written if and only if the connection is in creation, active or to be deleted, and does not wait |
| `TransportAnswers.TurnsIff` | lib/libdvben50221/en50221_transport.c:283-1296 | the exact causes of every change of state of a connection |
| `TransportAnswers.WaitsIff` | lib/libdvben50221/en50221_transport.c:283-1296 | the exact causes that begin and end the wait of a connection |
| `TransportAnswers.ChainFollows` | lib/libdvben50221/en50221_transport.c:1106-1211 | a T_DATA_MORE appends its bytes to the chain and a T_DATA_LAST clears it |
| `TransportAnswers.EnqueuedIs` | lib/libdvben50221/en50221_transport.c:530-778 | what is queued, byte by byte, and that nothing else is |
| `TransportAnswers.RefusedIff` | lib/libdvben50221/en50221_transport.c:885-1257 | a TPDU is refused exactly for an unknown connection, an unknown tag, or a state that does not fit, and then changes nothing |
| `TransportAnswers.WriteFailsIff` | lib/libdvben50221/en50221_transport.c:885-1257 | the only other error of a TPDU is an answer that the link did not take |
| `TransportAnswers.VisitFailsIff` | lib/libdvben50221/en50221_transport.c:425-507 | a visit fails exactly when its write does, or when an active connection waits too long |
| `TransportAnswers.CallFailsIff` | lib/libdvben50221/en50221_transport.c:530-778 | why each call of the host fails, exactly; a call that fails changes nothing |
| `TransportLayers.Connection.QueueMessage` | lib/libdvben50221/en50221_transport.c:1284-1296 | appends to the linked send queue |
| `TransportLayers.Connection.Dequeue` | lib/libdvben50221/en50221_transport.c:434-445 | takes the head off the linked send queue |
| `TransportLayers.Connection.Clear` | lib/libdvben50221/en50221_transport.c:295-318 | empties a connection and walks its queue |
| `TransportLayers.TransportSlot.constructor` | lib/libdvben50221/en50221_transport.c:136-204 | idle connections with empty queues |
| `TransportLayers.TransportSlot.Register` | lib/libdvben50221/en50221_transport.c:266-280 | the slot gets its device and number, and keeps its connections as they are |
| `TransportLayers.TransportLayer.RegisterSlot` | lib/libdvben50221/en50221_transport.c:247-281 | the first unused slot is taken into use and its number returned, or -1 and no change if there is none; other slots and devices stay |
| `TransportLayers.RouteIff` | lib/libdvben50221/en50221_transport.c:379-404 | a read is for its own slot when the slot numbers agree, and otherwise for the first slot of the same device with that number |
| `TransportLayers.TransportSlot.HandleCreateTcReply` | lib/libdvben50221/en50221_transport.c:947-974 | the slot afterwards, the events and the error are those of the specified step |
| `TransportLayers.TransportSlot.HandleDeleteTc` | lib/libdvben50221/en50221_transport.c:976-1020 | likewise for T_DELETE_T_C, with the reply written or not |
| `TransportLayers.TransportSlot.HandleDeleteTcReply` | lib/libdvben50221/en50221_transport.c:1022-1040 | likewise for the reply to a deletion |
| `TransportLayers.TransportSlot.HandleRequestTc` | lib/libdvben50221/en50221_transport.c:1042-1104 | likewise for a request of the module for another connection, with its two writes |
| `TransportLayers.TransportSlot.HandleDataMore` | lib/libdvben50221/en50221_transport.c:1106-1142 | likewise for a chained fragment |
| `TransportLayers.TransportSlot.HandleDataLast` | lib/libdvben50221/en50221_transport.c:1144-1211 | likewise for a last fragment |
| `TransportLayers.TransportSlot.HandleSb` | lib/libdvben50221/en50221_transport.c:1213-1257 | likewise for the status byte |
| `TransportLayers.TransportSlot.AllocNewTc` | lib/libdvben50221/en50221_transport.c:1259-1282 | the first idle connection but 0, which is put into creation without a chain |
| `TransportLayers.TransportSlot.HandleOne` | lib/libdvben50221/en50221_transport.c:885-937 | the dispatch by tag, with errors for unknown tags and connections |
| `TransportLayers.TransportSlot.Process` | lib/libdvben50221/en50221_transport.c:832-945 | the parse loop over the bytes of one read, up to the first error |
| `TransportLayers.TransportSlot.VisitOne` | lib/libdvben50221/en50221_transport.c:425-507 | the poll loop at one connection: one queued message, then a poll, then the time limit |
| `TransportLayers.TransportSlot.PollForData` | lib/libdvben50221/en50221_transport.c:810-829 | the poll for data marks the connection as waiting before the write |
| `TransportLayers.TransportSlot.VisitAll` | lib/libdvben50221/en50221_transport.c:425-507 | the poll loop over the connections of a slot, up to the first error |
| `TransportLayers.TransportSlot.SendDatav` | lib/libdvben50221/en50221_transport.c:530-679 | queues the framed message on an active connection of an open slot, or fails |
| `TransportLayers.TransportSlot.NewConnection` | lib/libdvben50221/en50221_transport.c:681-725 | allocates a connection and queues T_CREATE_T_C |
| `TransportLayers.TransportSlot.DeleteConnection` | lib/libdvben50221/en50221_transport.c:727-778 | queues T_DELETE_T_C and marks the connection |
| `TransportLayers.TransportSlot.Destroy` | lib/libdvben50221/en50221_transport.c:283-331 | clears every connection and its queue, then reports the closed slot |
| `TransportLayers.TransportLayer.constructor` | lib/libdvben50221/en50221_transport.c:136-204 | every slot unregistered, with idle connections |
| `TransportLayers.TransportLayer.SendDatav` | lib/libdvben50221/en50221_transport.c:595-679 | sending on any slot number changes that slot only |
| `TransportLayers.TransportLayer.ReadFrom` | lib/libdvben50221/en50221_transport.c:372-416 | the bytes of a read go to the slot itself, or to the first slot of the same device with the number read, or are refused as BADSLOTID; all TPDUs in them are processed up to the first error, and no other slot changes |
| `TransportLayers.TransportLayer.Incoming` | lib/libdvben50221/en50221_transport.c:832-945 | one TPDU for a slot changes that slot only |
| `SessionLayers.SessionLayer.constructor` | lib/libdvben50221/en50221_session.c:107-149 | all sessions idle |
| `SessionRuns.StackStepKeeps` | lib/libdvben50221/en50221_session.c:195-1055 | every step moves every session along the allowed transitions and keeps session 0 idle; it announces what it makes active and delivers only on active sessions, unless a session becomes active while no session callback is registered |
| `SessionRuns.StackStepHonestIff` | lib/libdvben50221/en50221_session.c:398-709 | it announces what it makes active if and only if no session becomes active in it while no session callback is registered |
| `SessionRuns.RunSessionMoves` | lib/libdvben50221/en50221_session.c:195-1055 | in every run: IDLE to IN_CREATION, from there to ACTIVE or IDLE, ACTIVE to IN_DELETION or IDLE, IN_DELETION to itself or IDLE |
| `SessionRuns.SessionZeroIdle` | lib/libdvben50221/en50221_session.c:1026-1055 | session 0 never leaves IDLE |
| `SessionRuns.ActiveAnnounced` | lib/libdvben50221/en50221_session.c:398-1055 | in every run in which no session becomes active while no session callback is registered, a session that is active has been announced and not been closed since |
| `SessionRuns.ApdusAnnounced` | lib/libdvben50221/en50221_session.c:771-867 | in the same runs an APDU is delivered on a session number only while that number stands announced: after a CLOSE there is none before a new CONNECTED or CAMCONNECTED |
| `SessionRuns.CloseReportsExact` | lib/libdvben50221/en50221_session.c:912-971 | the CLOSE calls for a closed connection or slot name exactly sessions that end, in order |
| `SessionRuns.CloseReportsAll` | lib/libdvben50221/en50221_session.c:912-971 | every session that ends is reported |
| `SessionAnswers.StepTurns` | lib/libdvben50221/en50221_session.c:195-1055 | what each step makes of each session, exactly: by the bytes of the PDU delivered on its own connection, by a reported end of its connection or slot, or by a call of the host |
| `SessionAnswers.CreationDecided` | lib/libdvben50221/en50221_session.c:627-709 | a session in creation becomes active, and is reported CONNECTED, if and only if its connection delivers 94 07 00, at least eight bytes behind the tag, and its number in bytes 5 and 6 of those; with any other status it is idle and reported CONNECTFAIL |
| `SessionAnswers.ActiveIff` | lib/libdvben50221/en50221_session.c:195-1055 | in every run a session is active at the end if and only if an open request was accepted or a create response granted for it, and since then the module has not closed it, its connection or its slot, nor the host destroyed it |
| `SessionAnswers.CalledIff` | lib/libdvben50221/en50221_session.c:398-1055 | the session callback is called with each cause for exactly one reason, about exactly one session, slot and resource |
| `SessionAnswers.OpenOrder` | lib/libdvben50221/en50221_session.c:430-520 | an accepted open request calls back CAMCONNECTING and then CAMCONNECTED |
| `SessionAnswers.PackageDelivers` | lib/libdvben50221/en50221_session.c:771-867 | the APDUs delivered from 90 02 and the number of an active session are the longest well-formed run behind it, in order, for the resource of the session |
| `SessionAnswers.ApdusOnlyOf` | lib/libdvben50221/en50221_session.c:771-867 | no APDU is delivered for any other reason |
| `SessionAnswers.OpenAnswered` | lib/libdvben50221/en50221_session.c:398-539 | an open request is answered 92 07, the status, the resource and the number, the status by what the lookup callback and the application said |
| `SessionAnswers.CloseAnswered` | lib/libdvben50221/en50221_session.c:541-625 | a close request is answered 96 03, 00 if it ends the session it names and f0 if not, and the two bytes that name it |
| `SessionAnswers.OthersUnanswered` | lib/libdvben50221/en50221_session.c:627-1024 | nothing else that comes in is answered |
| `SessionAnswers.CreateQueues` | lib/libdvben50221/en50221_session.c:195-236 | creating a session queues 93 06, the resource and the number of the first idle session but 0 |
| `SessionAnswers.DestroyQueues` | lib/libdvben50221/en50221_session.c:238-278 | destroying one queues 95 02 and its number |
| `SessionAnswers.SendQueues` | lib/libdvben50221/en50221_session.c:280-318 | sending queues 90 02, the number and the APDU |
| `SessionAnswers.PiecesQueue` | lib/libdvben50221/en50221_session.c:320-364 | sending up to nine pieces is sending their concatenation, and more fail |
| `SessionAnswers.BroadcastReaches` | lib/libdvben50221/en50221_session.c:366-394 | a broadcast queues, on every connection that carries data, the APDU for each active session on it with the resource and slot, in order, and changes nothing else |
| `SessionLayers.SessionLayer.Create` | lib/libdvben50221/en50221_session.c:195-236 | the stack afterwards and the session number, or -1 with the session idle again |
| `SessionLayers.SessionLayer.Destroy` | lib/libdvben50221/en50221_session.c:238-278 | a close request is queued, or the session goes idle |
| `SessionLayers.SessionLayer.SendData` | lib/libdvben50221/en50221_session.c:280-318 | an APDU is queued with its session header, or the call fails |
| `SessionLayers.SessionLayer.SendDatav` | lib/libdvben50221/en50221_session.c:320-364 | the same for at most nine pieces |
| `SessionLayers.SessionLayer.Broadcast` | lib/libdvben50221/en50221_session.c:366-394 | every active session of the resource and slot gets the APDU |
| `SessionLayers.SessionLayer.HandleOpen` | lib/libdvben50221/en50221_session.c:398-539 | lookup, allocation, question to the application, response and activation |
| `SessionLayers.SessionLayer.HandleCloseReq` | lib/libdvben50221/en50221_session.c:541-625 | the session goes idle only if it belongs to the connection, and the response says so |
| `SessionLayers.SessionLayer.HandleCreateResp` | lib/libdvben50221/en50221_session.c:627-709 | the session becomes active or idle, by the status byte at the offset that the code reads |
| `SessionLayers.SessionLayer.HandleCloseResp` | lib/libdvben50221/en50221_session.c:711-769 | a session in deletion goes idle whatever the status |
| `SessionLayers.SessionLayer.HandleSessionPackage` | lib/libdvben50221/en50221_session.c:771-867 | the APDUs of a package for an active session on its own connection |
| `SessionLayers.SessionLayer.EndWhere` | lib/libdvben50221/en50221_session.c:912-971 | the loops over all sessions when a connection or slot closes |
| `SessionLayers.SessionLayer.TransportCallback` | lib/libdvben50221/en50221_session.c:869-1024 | the dispatch of reports and data |
| `SessionLayers.SessionLayer.FindFree` | lib/libdvben50221/en50221_session.c:1026-1042 | the first idle session but 0 |
| `SessionLayers.SessionLayer.Receive` | lib/libdvben50221/en50221_transport.c:832-945 | a TPDU goes through both layers: the handler of its connection, then the callback with its report |
| `CrossLayer.DownIff` | lib/libdvben50221/en50221_transport.c:425-1257 | an active connection goes down in a step exactly when the step silences or reports it |
| `CrossLayer.StepLinkedIff` | lib/libdvben50221/en50221_session.c:195-1055 | a step keeps every session in use on an active connection if and only if it does not silently take down a connection with a session in use |
| `CrossLayer.RunLinkedIff` | lib/libdvben50221/en50221_session.c:195-1055 | all through a run each session in use names an active connection of an open slot, if and only if the host deletes no connection with a session in use, and no reply to a deletion of such a connection by the module fails to be written |
| `CrossLayer.NeverPolledDown` | lib/libdvben50221/en50221_transport.c:425-472 | in no run does the poll loop take an active connection down |
| `CrossLayer.DeletionStrands` | lib/libdvben50221/en50221_transport.c:727-778 | a deletion by the host leaves the sessions of its connection behind |
| `CrossLayer.CloseEndsOtherSlotIff` | lib/libdvben50221/en50221_session.c:912-943 | a closed connection ends a session of another slot if and only if that session uses the same connection number |
| `Mmi.DefragmentStep` | lib/libdvben50221/en50221_app_mmi.c:1172-1301 | one fragment: a last one returns what was pending for its session and kind and then its own bytes, a further one joins them, every other key is unchanged, and session numbers stay unique |
| `Mmi.RunPends` | lib/libdvben50221/en50221_app_mmi.c:1172-1301 | in every run, with sessions cleared in between, the pending bytes of each key are the further fragments since its last one |
| `Mmi.LastReturnsWhole` | lib/libdvben50221/en50221_app_mmi.c:1172-1301 | for the tags of menus, lists, subtitle segments and downloads: after any run the last fragment is answered with the data of the further fragments with the tags of the same object since the previous last one, and its own; joined in a new block exactly when some fragment has begun the session |
| `Mmi.MoreIsKept` | lib/libdvben50221/en50221_app_mmi.c:1184-1240 | a further fragment is kept and asks for more |
| `Mmi.OthersRefused` | lib/libdvben50221/en50221_app_mmi.c:1230-1273 | any other tag is refused, but for a last fragment of a session that none has begun |
| `Mmi.ClearPends` | lib/libdvben50221/en50221_app_mmi.c:207-236 | clearing a session drops its pending bytes and no others |
| `Mmi.SessionList.DefragmentOne` | lib/libdvben50221/en50221_app_mmi.c:1172-1301 | the linked list becomes the specified one, with a new session in front; the status says whether the data is to come, the input itself or a joined block |
| `Mmi.SessionList.ClearOne` | lib/libdvben50221/en50221_app_mmi.c:207-236 | the session is unlinked from the list |
| `Mmi.TextRoundTrip` | lib/libdvben50221/en50221_app_mmi.c:1303-1397 | a text sent in any number of fragments is read back whole, consuming exactly its bytes |
| `Mmi.TextOnlyOf` | lib/libdvben50221/en50221_app_mmi.c:1303-1397 | and whatever is read as a text is a row of such fragments, with their bytes joined |
| `Mmi.DefragmentText` | lib/libdvben50221/en50221_app_mmi.c:1303-1397 | the text, its status and the bytes consumed, or why there is none |
| `CaPmt.SplitConcat` | lib/libucsi/descriptor.h:47-62 | walking a descriptor loop visits exactly the descriptors it was made of |
| `CaPmt.DescriptorIff` | lib/libucsi/descriptor.h:36-62 | a descriptor is a tag, the size of its body, and the body |
| `CaPmt.CaDescriptorsAre` | lib/libdvben50221/en50221_app_ca.c:316-356 | of any list of descriptors exactly those with tag 0x09 are extracted, in order |
| `CaPmt.HoistSoundIff` | lib/libdvben50221/en50221_app_ca.c:439-497 | putting the first stream's descriptors in place of the programme's keeps what applies to every stream exactly when all streams carry the same ones |
| `CaPmt.ArrangeKeepsEffective` | lib/libdvben50221/en50221_app_ca.c:220-229 | with or without the move every stream keeps its type, its pid and its effective descriptors |
| `CaPmt.ArrangeNoLonger` | lib/libdvben50221/en50221_app_ca.c:439-497 | the move never lengthens the object |
| `CaPmt.ArrangeShortensIff` | lib/libdvben50221/en50221_app_ca.c:439-497 | it is made, and shortens the object, if and only if it is asked for, the programme has no CA descriptors, and at least two streams all carry the same ones |
| `CaPmt.PrintRoundTripIff` | lib/libdvben50221/en50221_app_ca.c:242-279 | a reader for section 8.4.3.4 of EN 50221 recovers any object, from a PMT or not, exactly when every descriptor loop is below 4096 bytes |
| `CaPmt.DecodedFits` | lib/libdvben50221/en50221_app_ca.c:242-279 | with or without the move, every descriptor loop of a PMT section fits its 12-bit length, since the section length bounds it |
| `CaPmt.FormattedMeaning` | lib/libdvben50221/en50221_app_ca.c:201-308 | for every PMT section that the codec accepts, from PMT to reader: head, streams in order with type and pid, the command in every loop that is not empty, and for each stream the descriptors of programme and stream with tag 0x09, all of them and no others, in order |
| `CaFormat.ExtractDescriptors` | lib/libdvben50221/en50221_app_ca.c:316-356 | the CA descriptors of a loop, in order |
| `CaFormat.ExtractStreams` | lib/libdvben50221/en50221_app_ca.c:358-437 | the streams with their CA descriptors |
| `CaFormat.MoveDescriptors` | lib/libdvben50221/en50221_app_ca.c:439-497 | compares all streams with the first, then relinks |
| `CaFormat.CalculateLength` | lib/libdvben50221/en50221_app_ca.c:499-544 | the total is the length of what is printed, and every loop length is noted |
| `CaFormat.WriteLoop` | lib/libdvben50221/en50221_app_ca.c:243-256 | one descriptor loop: its 12-bit length, the command id and the descriptors |
| `CaFormat.FormatPmt` | lib/libdvben50221/en50221_app_ca.c:201-308 | writes exactly the object if it fits the space given, and otherwise returns -1 and writes nothing |
| `Pages.DoErc` | util/alevt/cache.c:16-33 | completes a new reception row by row from the old one |
| `Pages.StoredLastGood` | util/alevt/cache.c:16-33 | merging receptions one after the other keeps at every received position the latest good character |
| `Pages.StoredGoodIff` | util/alevt/cache.c:16-33 | the rows merged are the union of those received, and a position is good exactly when some reception was good there |
| `Pages.StoredOrderFree` | util/alevt/cache.c:16-33 | for receptions that agree where two are good, neither order nor repetition matters to the merge |
| `Pages.StoredFields` | util/alevt/cache.c:16-33 | all fields but rows and characters are those of the last reception |
| `Pages.MergedRows` | util/alevt/cache.c:24-32 | a row is the old one where the new reception lacks it, and the new one where the old one lacks it |
| `Pages.MergeLosesIff` | util/alevt/cache.c:20-21 | a merge loses a good character only when the page counts no errors, has the same rows and yet has a bad character |
| `DlLists.DlList.Remove` | util/alevt/dllist.h:29-34 | unlinks a node in both directions |
| `DlLists.DlList.InsertFirst` | util/alevt/dllist.h:37-50 | links a node behind the head |
| `DlLists.DlList.Search` | util/alevt/cache.c:76-81 | the walk to the first matching page, or to the tail sentinel |
| `DlLists.DlList.KeepHelp` | util/alevt/cache.c:57-64 | removes all pages but help pages during the walk |
| `Caches.Cache.constructor` | util/alevt/cache.c:203-217 | the empty cache, before the help pages are put |
| `Caches.Cache.GetPage` | util/alevt/cache.c:72-86 | the page found, and its bucket with that page in front |
| `Caches.Cache.PutPage` | util/alevt/cache.c:92-121 | the merged page in front of its bucket, the count and the index |
| `Caches.Cache.ResetAll` | util/alevt/cache.c:52-66 | only help pages remain; the index of the others is cleared and the count adjusted |
| `Caches.Cache.LookupNode` | util/alevt/cache.c:126-136 | a search without reordering |
| `Caches.Cache.SetErc` | util/alevt/cache.c:177-189 | switches error reduction |
| `CacheModel.RunInv` | util/alevt/cache.c:52-121 | in every run: keys unique, each page in bucket pgno % 113, npages the number of pages, every stored subpage below its index entry |
| `CacheModel.RunBuckets` | util/alevt/cache.c:9-13 | in every run a page stands in the bucket of its page number modulo 113 |
| `CacheModel.RunTight` | util/alevt/cache.c:52-121 | in every run an index entry that is not 0 names a stored subpage |
| `CacheModel.GetKeepsMap` | util/alevt/cache.c:72-86 | getting changes no entry of the map from keys to pages |
| `CacheModel.PutUpdatesMap` | util/alevt/cache.c:92-121 | putting changes the entry of its key only, to the merge if there was one |
| `CacheModel.ResetFiltersMap` | util/alevt/cache.c:52-66 | a reset drops exactly the entries outside the help pages |
| `CacheStores.CacheHolds` | util/alevt/cache.c:92-121 | after every run the cache holds for each key the merge of its receptions since the last that replaced or dropped the page, and nothing if there are none |
| `CacheStores.CacheGoodIff` | util/alevt/cache.c:92-121 | after every run it holds a row if and only if one of these receptions had it, and a good character if and only if one was good there |
| `CacheStores.CacheLastGood` | util/alevt/cache.c:92-121 | after every run it holds at every received position the good character received last |
| `CacheStores.CacheOrderFree` | util/alevt/cache.c:92-121 | two runs with the same agreeing receptions of a page hold the same rows and characters, whatever their order and number |
| `CacheStores.CacheLastFields` | util/alevt/cache.c:92-121 | after every run all fields of a held page but rows and characters are those of its last reception |
| `CacheStores.GetGives` | util/alevt/cache.c:72-86 | after every run asking for a subpage gives just what is held for it |
| `CacheStores.ModeHolds` | util/alevt/cache.c:177-189 | error reduction is on at first, and then as it was last switched |
| `CacheModel.RunNewestFirst` | util/alevt/cache.c:72-121 | in every run each bucket is ordered by the last put or get of its pages |
| `CacheModel.AnySubpageIsNewest` | util/alevt/cache.c:72-86 | asking for any subpage gives the one touched last |
| `Caches.Cache.ForEachPage` | util/alevt/cache.c:139-174 | ends on every cache; a result is acceptable and is the page of some position that the index covers; on an exact cache the tried pages are those of the cyclic order up to the first accepted, or all of them |
| `CacheSearch.SearchedFirst` | util/alevt/cache.c:139-174 | the result is the first acceptable page on the way, and nothing exactly when no page is acceptable |
| `CacheSearch.StartComesLast` | util/alevt/cache.c:139-174 | the page that a search starts from, also one found for ANY_SUB, is tried last |
| `CacheSearch.StartsThereIff` | util/alevt/cache.c:155-163 | the order is that of the nominal start unless the search goes down from above the subpages of a page that has some: those then come last |
| `CacheSearch.StartIsNominal` | util/alevt/cache.c:145-155 | a search from a page that is not there goes on from its number |
| `CacheSearch.NextPosition` | util/alevt/cache.c:155-163 | the inner loop terminates at the next position that the index covers |
| `CacheSearch.ExactIff` | util/alevt/cache.c:126-136 | every position gives its own page exactly when each page numbered ANY_SUB is the newest of its page number |
| `CacheSearch.HiddenPage` | util/alevt/cache.c:126-136 | otherwise such a page is found by no lookup |
| `CacheSearch.AllFindableIff` | util/alevt/cache.c:126-174 | every cached page can be found exactly when each page numbered ANY_SUB is the newest of its page number |
| `CacheSearch.SearchFinds` | util/alevt/cache.c:139-174 | a search that accepts one cached page only returns it on such a cache, and returns nothing if the page cannot be found |
| `CacheSearch.PutHides` | util/alevt/cache.c:92-174 | after any run, a put under ANY_SUB followed by a put of another subpage leaves the first page where no search finds it |
| `ConfigText.ScanPrinted` | lib/libdvbcfg/dvbcfg_common.c:28-50 | a printed 32-bit number is read back |
| `ConfigText.ScanPrefixed` | lib/libdvbcfg/dvbcfg_common.c:28-50 | a number behind 0x is read as hexadecimal, one behind another 0 as octal |
| `ConfigText.SettingRoundTrip` | lib/libdvbcfg/dvbcfg_common.c:76-100 | a printed setting is read back, given distinct names |
| `ConfigText.LookupIff` | lib/libdvbcfg/dvbcfg_common.c:127-136 | a value has a name exactly when the table lists it |
| `ZapTables.FecsSound` | lib/libdvbcfg/dvbcfg_zapchannel.c:39-51 | the names of the code rate table differ and cannot break a line |
| `ZapTables.FecsReadAs` | lib/libdvbcfg/dvbcfg_zapchannel.c:39-51 | likewise |
| `ZapTables.InversionsSound` | lib/libdvbcfg/dvbcfg_zapchannel.c:32-37 | so do those of the inversion table |
| `ZapTables.InversionsReadAs` | lib/libdvbcfg/dvbcfg_zapchannel.c:32-37 | each name of the table is read as the value of its enumerator in lib/libdvbapi/dvbfe.h, and no other name is read |
| `ZapTables.DvbcModulationsSound` | lib/libdvbcfg/dvbcfg_zapchannel.c:53-61 | of the DVB-C modulation table |
| `ZapTables.DvbcModulationsReadAs` | lib/libdvbcfg/dvbcfg_zapchannel.c:53-61 | likewise |
| `ZapTables.BandwidthsSound` | lib/libdvbcfg/dvbcfg_zapchannel.c:63-69 | of the bandwidth table |
| `ZapTables.BandwidthsReadAs` | lib/libdvbcfg/dvbcfg_zapchannel.c:63-69 | likewise |
| `ZapTables.ConstellationsSound` | lib/libdvbcfg/dvbcfg_zapchannel.c:71-80 | of the constellation table |
| `ZapTables.ConstellationsReadAs` | lib/libdvbcfg/dvbcfg_zapchannel.c:71-80 | likewise |
| `ZapTables.TransmissionModesSound` | lib/libdvbcfg/dvbcfg_zapchannel.c:82-87 | of the transmission mode table |
| `ZapTables.TransmissionModesReadAs` | lib/libdvbcfg/dvbcfg_zapchannel.c:82-87 | likewise |
| `ZapTables.GuardIntervalsSound` | lib/libdvbcfg/dvbcfg_zapchannel.c:89-96 | of the guard interval table |
| `ZapTables.GuardIntervalsReadAs` | lib/libdvbcfg/dvbcfg_zapchannel.c:89-96 | likewise |
| `ZapTables.HierarchiesSound` | lib/libdvbcfg/dvbcfg_zapchannel.c:98-105 | of the hierarchy table |
| `ZapTables.HierarchiesReadAs` | lib/libdvbcfg/dvbcfg_zapchannel.c:98-105 | likewise |
| `ZapTables.AtscModulationsSound` | lib/libdvbcfg/dvbcfg_zapchannel.c:107-113 | of the ATSC modulation table |
| `ZapTables.AtscModulationsReadAs` | lib/libdvbcfg/dvbcfg_zapchannel.c:107-113 | likewise |
| `ZapRoundTrip.AtscClassified` | lib/libdvbcfg/dvbcfg_zapchannel.c:143-154 | a printed ATSC line is taken for one |
| `ZapRoundTrip.DvbcClassified` | lib/libdvbcfg/dvbcfg_zapchannel.c:143-154 | a printed DVB-C line is taken for one |
| `ZapRoundTrip.DvbsClassified` | lib/libdvbcfg/dvbcfg_zapchannel.c:143-154 | a printed DVB-S line is taken for one |
| `ZapRoundTrip.DvbtClassified` | lib/libdvbcfg/dvbcfg_zapchannel.c:143-154 | a printed DVB-T line is taken for one |
| `ZapRoundTrip.LineProducible` | lib/libdvbcfg/dvbcfg_zapchannel.c:115-303 | whatever a line holds, a channel read from it has a clean name and listed settings |
| `ZapRoundTrip.LineRoundTripIff` | lib/libdvbcfg/dvbcfg_zapchannel.c:115-384 | a printed channel is read back, up to the fields that reading always sets, exactly when its name is free of the characters of the format and fits, its settings are listed and its DVB-S values are whole thousands |
| `ZapRoundTrip.NameOkIff` | lib/libdvbcfg/dvbcfg_zapchannel.c:126-135 | the names that a line can hold have at most 127 characters and none of colon, hash, newline and NUL |
| `ZapRoundTrip.PolarizationIff` | lib/libdvbcfg/dvbcfg_zapchannel.c:205-225 | a polarization is one of h, v, l, r in either case, and is kept as a small letter |
| `ZapRoundTrip.PrintedColumns` | lib/libdvbcfg/dvbcfg_zapchannel.c:305-384 | which value stands in which column of a line, for each kind of channel |
| `ZapRoundTrip.MissingFields` | lib/libdvbcfg/dvbcfg_zapchannel.c:262-289 | a line without a service id has the id 0, one without an audio pid has no channel |
| `ZapRoundTrip.AlwaysSet` | lib/libdvbcfg/dvbcfg_zapchannel.c:156-225 | inversion and code rate are automatic where a line cannot give them |
| `ZapRoundTrip.LinesReadAlone` | lib/libdvbcfg/dvbcfg_zapchannel.c:122-295 | every line is read on its own, in order, and one without a channel is passed over |
| `ZapRoundTrip.FileRoundTrip` | lib/libdvbcfg/dvbcfg_zapchannel.c:115-384 | reading a saved list gives every channel back, in order |
| `ZapRoundTrip.CommentIsRead` | lib/libdvbcfg/dvbcfg_common.c:102-125 | with no colon in front of it the text of a comment is read as the fields of a channel |
| `ZapRoundTrip.CommentedChannelIsRead` | lib/libdvbcfg/dvbcfg_common.c:102-125 | so a channel that was commented out behind its name is still read |
| `ZapRoundTrip.CommentIgnoredIff` | lib/libdvbcfg/dvbcfg_zapchannel.c:122-135 | a comment is ignored, whatever it says, if and only if a colon stands in front of it, or a text too long for a name |
| `ZapRoundTrip.StaleIsRead` | lib/libdvbcfg/dvbcfg_zapchannel.c:122-135 | in a last line of a name alone, without newline, comment and colon, what an earlier line left in the buffer is read as the fields of a channel |
| `ZapRoundTrip.StaleIgnoredIff` | lib/libdvbcfg/dvbcfg_zapchannel.c:122-135 | what an earlier line left in the buffer is ignored, whatever it is, if and only if the line has a newline, a comment, a colon, a NUL, or a text too long for a name |
| `ZapParser.Cursor.ReadInt` | lib/libdvbcfg/dvbcfg_common.c:28-50 | cuts the field in place and moves the cursor, or makes it null |
| `ZapParser.Cursor.ReadChar` | lib/libdvbcfg/dvbcfg_common.c:52-74 | likewise for a character |
| `ZapParser.Cursor.ReadSetting` | lib/libdvbcfg/dvbcfg_common.c:76-100 | likewise for a setting |
| `ZapParser.Cursor.ParseBody` | lib/libdvbcfg/dvbcfg_zapchannel.c:137-289 | reads frequency, kind, settings and pids through the cursor; a missing service id is 0, any other missing field means no channel |
| `ZapParser.ParseLine` | lib/libdvbcfg/dvbcfg_zapchannel.c:122-289 | the channel that a line buffer holds, or none, with newline and comment cut off in place and the name ending at the first colon or at the end |
| `ZapParser.ParseFile` | lib/libdvbcfg/dvbcfg_zapchannel.c:115-303 | calls back with exactly the channels that the lines hold, in order, up to the first at which the callback stops, and returns what the callback asks for |
| `ZapParser.CalledUpTo` | lib/libdvbcfg/dvbcfg_zapchannel.c:289-303 | the callback gets the channels in order, up to the first for which it does not return 0, and what it returned there is returned, or 0 if that is negative |
| `ZapParser.SaveFile` | lib/libdvbcfg/dvbcfg_zapchannel.c:305-384 | the text is the printed lines of all channels handed out, in order; the value returned is the one with which the callback ended, or 0 if that is negative |
| `ZapParser.LookupName` | lib/libdvbcfg/dvbcfg_common.c:127-136 | the name of the first setting with a value, or none |
| `ZapParser.SaveAndParse` | lib/libdvbcfg/dvbcfg_zapchannel.c:115-384 | saving channels and parsing the text calls back with all of them, in order and normalised, whatever value ended the saving |

## Left out

- Devices, sockets and files: `ioctl`, `poll`, `read` and `write` are inputs and events of steps; a channel file is its
  text, and what an earlier line has left in the line buffer is a parameter.
- Time: clocks are the inputs "poll due" and "response late"; a set `tx_time` is the flag `waiting`.
- Threads and mutexes: handlers are atomic and callbacks do not call back into the stack, nor does the callback of a
  page search change the cache. That `en50221_app_mmi_clear_session` returns without unlocking is outside the model.
- Failing `malloc` and `realloc`; a `realloc` to zero bytes counts as a success.
- The error number and slot that a session or transport layer stores for later queries, but for the error that the
  transport step itself returns; the resource callback pointers stored in a session.
- The array of `pollfd` and the choice of slots in `en50221_tl_poll`: a slot's reads and its visits are separate steps.
- TransportLayers.TransportLayer.Incoming: handles one TPDU, which `SessionLayer.Receive` passes up before the next; all TPDUs of a read are processed by `ReadFrom`, whose reports are events.
- SessionRuns.StackStepKeeps: the announcing half has the premise that no session becomes active while no session callback is registered, since nothing is announced then.
- SessionRuns.ActiveAnnounced: has the same premise for the whole run.
- SessionRuns.ApdusAnnounced: has the same premise for the whole run.
- Section.SectionExtEncode: the header fields are those of a little-endian host, and a length below 1 is not encoded.
- SectionBufs.SectionBuf.AddTransportPayload: an empty payload with the start indicator, of which the code reads a byte that is not there, counts as an invalid pointer field.
- Mmi.DefragmentText: a declared length that reaches behind the data, which the code does not check, ends the model with `Overrun`.
- Mmi.SessionList.DefragmentOne: an absent block chain and an empty one are not told apart.
- Caches.Cache.ForEachPage: the start is a page number from 0x100 to 0x9ff and a subpage number from 0 to 0xffff, the step up or down is one.
- Caches.Cache.PutPage: page numbers are 0x100 to 0x9ff and subpage numbers at most 0x3f7f, which the index in the cache header provides for.
- ConfigText.ScanPrinted: `sscanf` and `printf` with `%i` are those of glibc; a DVB-S symbol rate whose multiplication by 1000 overflows wraps around.
- ZapParser.SaveFile: write errors of `fprintf`; a callback that never ends the list.
- ZapParser.Cursor.ParseBody: fields of the channel structure that a line does not set, and that keep what an earlier line left there.
- `asn_1_decode` and the handlers for messages of other EN 50221 resources (ai, auth, datetime, dvb, epg, rm, smartcard, teletext): simple encoders and decoders, easy members.
- The lowspeed reassembly, which repeats the MMI one; `dvbsec_cfg`, whose save and load do not use the same format.
- `hamm.c`, the teletext decoder `vbi.c`, and all user interfaces and command-line tools.
