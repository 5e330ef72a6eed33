# A verified model of an MPEG-2 transport stream demultiplexer

The library reads an MPEG-2 transport stream (ISO/IEC 13818-1): it routes 188-byte packets to a
filter for their PID, rebuilds table sections from packet payloads, checks their CRC-32, keeps the
filters in step with the program association and program map tables, and hands elementary
stream packets to an application. This project models those parts in Dafny and proves what they
are for.

Where the library updates state, the model is a class whose methods are proved equal to a
specification function on values; the theorems are about those functions.

| file | models |
|---|---|
| `Bytes.dfy` | octets, PIDs and big-endian fields |
| `CrcTable.dfy`, `Crc.dfy` | the CRC table with its 256 entries, the loop over it, and the shift register it stands for |
| `CrcTheorems.dfy` | appended check words, burst detection, the checksum as a polynomial remainder |
| `Packets.dfy` | packet header, adaptation field and payload bounds |
| `Sections.dfy` | section framing one byte at a time, in both syntax modes |
| `Framer.dfy` | the framer itself: buffer, target, fast path, pointer field |
| `SectionTheorems.dfy` | slices may be cut anywhere; every byte accounted for |
| `Packetiser.dfy` | a multiplexer of sections, accepted or refused; the round trip, and resynchronisation after loss |
| `SectionRules.dfy` | which sections and packets are accepted, said of their bytes |
| `PrePointer.dfy` | the bytes before the pointer, and the state after a refused section of no length |
| `Tables.dfy` | PAT, PMT and descriptor lists, with encoders |
| `Filters.dfy`, `Demultiplexer.dfy` | the vector of filters, the queued changes, and `push` |
| `Processors.dfy` | version de-duplication and the CRC check |
| `TableProcessors.dfy`, `Reconciliation.dfy` | the PAT and PMT processors, over any sequence of tables |
| `WireTables.dfy`, `Requests.dfy` | table sections from their fields, and what the application is asked for them |
| `TableFilters.dfy`, `EndToEnd.dfy` | the whole chain, from packets to the filter map |
| `AnyStream.dfy` | the same for any packets at all: losses, repeats and corrupt sections |
| `Routing.dfy` | many PIDs interleaved: each filter consumes its own packets |
| `TableSeries.dfy` | series of tables on any PID, from entries to filters |
| `Broadcast.dfy` | a multiplexer from program entries to the bytes that are pushed, and what they leave |
| `Pes.dfy` | the PES packet filter |
| `Clocks.dfy` | time stamps and clock references |
| `Layouts.dfy` | flag-driven layouts read front to back |
| `AdaptationFields.dfy`, `PesHeaders.dfy`, `PesExtensions.dfy` | the getters with their offset chains, and encoders |

A packet is a sequence of 188 bytes beginning with the sync byte. Parsers, consumers and the
error sink are lists of events. The application's context is a value with two functions, one that
constructs filters and one that takes errors; its filters are values with a function that
consumes a packet.

## Where the code differs from what one might expect

- `Packet::payload` is documented to give `Ok(None)` when the flag says there is no payload
  (`src/packet.rs:680-682`). It also does so when the flag says there is one and the adaptation
  field leaves no room for it (`src/packet.rs:699`): `Packets.PayloadBounds` has both cases.
- An adaptation field of length 0 beside a payload, which the standard allows as a single stuffing
  byte, is an error (`src/packet.rs:661-663`), although the payload is still returned:
  `Packets.FieldThenPayload` says exactly when both are there.
- If a section in progress ends before the pointer, the bytes left before the pointer are parsed
  as new sections (`src/psi/mod.rs:438-451`). `PrePointer.StrayDelivered` has whole sections among
  them delivered, `PrePointer.StrayDeliveredOnce` at one input. `PrePointer.StrayQuietExactly`
  says exactly when these bytes cause no event but the end of a section being collected: it ends
  there, and what is left begins with stuffing, or nothing is left and it was not a refused
  section of length 0 (see the next item). `PrePointer.SkippingQuietExactly` says the same of a
  refused section that is still being skipped, whose end is no event. `Packetiser.StartResynchronises`
  speaks of the bytes after the pointer.
- A rejected section of length 0 whose header was split between packets leaves the framer ignoring
  0 bytes, and otherwise idle (`src/psi/mod.rs:501-511`, `546-551`; `PrePointer.SplitReaches`).
  `feed` does not tell these apart, `consume` does. From the first state a continuation packet
  is read, from the second refused; and from the first a good start packet with pointer 0 is an
  error and a reset, which makes the de-duplicator forget its version, so that a repeated table
  is handled again (`PrePointer.RepeatedSectionPassesAgain`). `PrePointer.ToldApartExactly`
  says which packets tell them apart: every continuation packet, and every start packet with its
  pointer in bounds unless bytes come before the pointer and the first of them is 0xff. The
  model keeps the two states, and `SectionTheorems.Norm` joins them where only `feed` is
  concerned. So sections of which some are refused come back from their packets exactly if no
  refused section of length 0 is split, except with stuffing behind it or at the very end:
  `PrePointer.DeframeMixedExactly`.
- De-duplication remembers the version of a section before its CRC is checked, so a corrupt
  section suppresses a good one: `Processors.CorruptSectionSuppressesGood` says exactly when, and
  `Broadcast.DamagedCopySuppresses` has such input for every table and every burst of errors.
- A start packet whose PES header does not parse still puts the filter in its started state
  (`src/pes.rs:129-136`), so a consumer can be given `continue_packet` without `begin_packet`.
  `Pes.InStepExactly` says exactly when the consumer and the filter agree, and
  `Pes.LawfulExactly` when the calls are lawful whatever packet comes next.
- The PTS and DTS of a PES header are decoded without looking at their prefix bits
  (`src/pes.rs:1001-1016`), so a wrong prefix is not an error there. `PesHeaders.PrefixesUnchecked`
  says exactly when the result differs, `PesHeaders.WrongPrefixDecodes` has such a header.
- The pack header of a PES extension complains of missing data with the length of its own field
  when that is too short (`src/pes.rs:586-591`), and then no more bytes of the buffer can help:
  `PesExtensions.PackHeaderLacks` says exactly when, `PesExtensions.ShortPackField` at one input.

## Model

| member | source | states |
|---|---|---|
| Crc.TableStepDivides | src/mpegts_crc.rs:3-48 | For every register and byte, one lookup in the 256-entry table and a shift do what eight clocks of the shift register do with that byte's bits, most significant first. |
| Crc.ComputeSum32 | src/mpegts_crc.rs:40-49 | The loop over bytes returns what bit-by-bit division of the whole string leaves, starting from all ones. |
| CrcTheorems.SumIsRemainder | src/mpegts_crc.rs:40-49 | The checksum is the remainder of schoolbook polynomial division by the generator, of the message times x^32 with its first 32 coefficients inverted. |
| CrcTheorems.CheckWord | src/psi/mod.rs:169-175 | A message followed by four bytes checks to zero if and only if those bytes are its checksum, most significant first. |
| CrcTheorems.BurstDetected | src/psi/mod.rs:167-175 | In data of any length, flipping any non-empty set of bits within 32 consecutive ones changes the checksum, so a zero check no longer holds. |
| Packets.HeaderRoundTrip | src/packet.rs:597-643 | Every combination of error bit, start bit, PID, scrambling control, adaptation control and counter is read back; any scrambling control but 0 is scrambled. |
| Packets.AdaptationFieldExactly | src/packet.rs:653-679 | The adaptation field for all flags and lengths, with its errors: 1 to 182 bytes beside a payload, exactly 183 without. |
| Packets.FieldOnly | src/packet.rs:653-717 | A packet with an adaptation field and no payload gives the field back, and no payload. |
| Packets.FieldThenPayload | src/packet.rs:653-717 | Adaptation field and payload both exist exactly when both flags are set with a length from 1 to 182, and then they are exactly bytes 5 to 187. |
| Packets.PayloadBounds | src/packet.rs:686-717 | A payload is a non-empty tail of the packet of at most 184 bytes; which packets have none, and which are in error. |
| Packets.PayloadFaults | src/packet.rs:695-703 | The error of a payload out of bounds carries the offset, 5 more than the adaptation field's length. |
| Packets.PacketShape | src/packet.rs:556-594 | A packet is 188 bytes of which the first is 0x47. |
| Packets.CarryRoundTrip | src/packet.rs:597-717 | Any payload of 1 to 184 bytes written into a packet, with stuffing in an adaptation field, is read back, with PID, flags and counter. |
| Sections.RunRejected | src/psi/mod.rs:498-512 | A section refused in its syntax mode is one error, and its declared bytes are passed over, in this slice or a later one. |
| Sections.RunAccepted | src/psi/mod.rs:513-527 | A valid section that lies within the slice is delivered whole and reading goes on after it; otherwise its bytes are kept with its declared size as target. |
| SectionRules.SectionHeaderRule | src/psi/mod.rs:281-312 | In the section syntax a header is accepted if and only if its syntax bit is set and its length is from 5 to 4093, read from its bytes; and which error, with which numbers, each other header gets. |
| SectionRules.CompactHeaderRule | src/psi/mod.rs:336-358 | In the compact syntax, if and only if the syntax bit is clear and the length at most 4093; and the errors. |
| SectionRules.StuffingByte | src/psi/mod.rs:492-497 | Between sections a slice tells nothing and leaves nothing if and only if it begins with 0xff. |
| SectionRules.SilentUntilStart | src/psi/mod.rs:456-464 | Nothing is told of packets before the first start packet, and nothing kept. |
| SectionRules.BadPointer | src/psi/mod.rs:431-437 | A start packet with its pointer out of bounds is an error and a reset; what follows is treated as if the framer were idle, and synchronised only if it was. |
| SectionRules.StrayContinuation | src/psi/mod.rs:456-460 | A continuation with no section in progress is an error and changes nothing. |
| SectionRules.NothingCarried | src/psi/mod.rs:466-474 | A packet without payload by its flag or its adaptation field's length, and one whose adaptation field is too long, each get their own error and change nothing, read from the packet's bytes. |
| SectionRules.EmptyStart | src/psi/mod.rs:425-430 | An empty start payload is an error and a reset. |
| Sections.Step | src/psi/mod.rs:489-589 | One byte of section framing; it keeps the invariant that a section in progress is shorter than its target, at most 4096, and that the target is the one its validated header sets. |
| Sections.Feed | src/psi/mod.rs:489-589 | What one slice does; between slices no header is half read and no stuffing is pending. |
| Framers.Consume | src/psi/mod.rs:422-476 | What one packet does; it keeps the invariant that before the first start packet nothing is in progress. |
| Framers.Framer.constructor | src/psi/mod.rs:408-417 | A new framer is idle, empty and not synchronised. |
| Framers.Framer.ResetState | src/psi/mod.rs:479-486 | The section in progress is dropped and the parser told, but not the fact that a start was seen. |
| Framers.Framer.WaitingTurn | src/psi/mod.rs:492-533 | Between sections: the fast path, the rejection and the buffering of what a slice holds agree with the byte machine, and use up bytes or the slice. |
| Framers.Framer.FillingTurn | src/psi/mod.rs:534-575 | With a section in progress: filling the header, then the section, agrees with the byte machine and always uses up bytes. |
| Framers.Framer.SkippingTurn | src/psi/mod.rs:576-586 | Past a rejected section: agrees with the byte machine, and a turn that takes no byte is not followed by another. |
| Framers.Framer.FeedSlice | src/psi/mod.rs:489-589 | `feed` terminates and, for every state and slice, has the events and the final state of the machine that takes one byte at a time. |
| Framers.Framer.ConsumePacket | src/psi/mod.rs:422-476 | `consume` has the events and final state of its specification, for every packet, in both modes. |
| SectionTheorems.FeedSplit | src/psi/mod.rs:489-589 | Feeding a then b is feeding a + b, in events and final state, for every cut, unless a reaches stuffing; if it does, b would have been dropped with the rest of the slice. |
| SectionTheorems.ParseKeeps | src/psi/mod.rs:489-589 | The grammar of a slice divides any bytes into pieces without losing, adding or reordering one. |
| SectionTheorems.EveryByteAccounted | src/psi/mod.rs:489-589 | The bytes held and the bytes fed are, in order and without overlap, the delivered, rejected, skipped, stuffing and still held bytes; the events and the state left are those of these pieces. |
| SectionRules.DeframeEncoded | src/psi/mod.rs:422-589 | Every body of 5 to 4093 bytes in the section syntax, or of up to 4093 in the compact one, under any table id but 0xff, written with its header, comes back with all header fields and bytes from any legal packetisation. |
| SectionRules.DeframeEncodedMixed | src/psi/mod.rs:281-589 | With bodies of any 12-bit length and either syntax bit, each is told of by its delivery or by the error its fields call for, if and only if the packetisation is harmless. |
| Packetiser.PlanHeard | src/psi/mod.rs:422-589 | Over any legal packetisation of sections of which some are refused, finished or not, each section completed is told of once and in order, by its delivery or by its one error as soon as its header is complete, and nothing else is told; provided that no refused section of length 0 is split without stuffing behind it. |
| Packetiser.DeframeMixed | src/psi/mod.rs:422-589 | The round trip with refused sections among the others, and the state at its end, under the same proviso. |
| Packetiser.PlanConsumed | src/psi/mod.rs:422-589 | Over any legal packetisation, finished or not, with back-to-back sections, headers across packets and stuffing, the framer delivers exactly the sections completed, in order and byte for byte, with no error. |
| Packetiser.DeframePacketised | src/psi/mod.rs:422-589 | The round trip: packets made from any list of valid sections by any legal plan that sends them all make a new framer deliver that list. |
| Packetiser.StartResynchronises | src/psi/mod.rs:425-486 | From every state the framer can be in, a start packet with its pointer in bounds leaves the framer, and every later packet, as with a new framer; only what the bytes before the pointer end differs. |
| Packetiser.HeardAfterLoss | src/psi/mod.rs:425-589 | After any packets at all and any bytes before the pointer, a sender that starts again has all the sections it completes delivered, and nothing else from the pointer on. |
| PrePointer.SplitReaches | src/psi/mod.rs:501-551 | A refused section of length 0 leaves the framer ignoring 0 bytes if its header is split between two packets, wherever, and idle if not, with the same events. |
| PrePointer.SplitReached | src/psi/mod.rs:301-310 | Such a section exists in the section syntax: the framer reaches that state. |
| PrePointer.ToldApartExactly | src/psi/mod.rs:422-476 | A packet has the same events from these two states if and only if it has no payload or a malformed one, or it is a start packet with its pointer out of bounds, or with bytes before the pointer of which the first is 0xff; an empty start payload too. |
| PrePointer.StartsDiffer | src/psi/mod.rs:438-454 | What a start packet adds from the first state: what its bytes before the pointer close, which is an error and a reset if there are none; what follows is told the same. |
| PrePointer.RepeatedSectionPassesAgain | src/psi/mod.rs:448-451 | From the first state a section with the version last passed on is examined anew, after an error; from the idle state it is left out. |
| PrePointer.StrayTells | src/psi/mod.rs:438-451 | When a section is being collected, the bytes before the pointer go to its end, and any that are left are read as sections; what is then still in progress is an error and a reset. |
| PrePointer.StrayQuietExactly | src/psi/mod.rs:438-451 | Then they cause no event but the end of that section if and only if it ends there and nothing is left, unless it was refused with length 0, or what is left begins with 0xff. |
| PrePointer.SkippingTells | src/psi/mod.rs:438-451 | When a refused section is still being skipped, the bytes before the pointer end it in silence and any that are left are read as sections; if they do not end it, or leave one in progress, that is an error and a reset. |
| PrePointer.SkippingQuietExactly | src/psi/mod.rs:438-451 | Then they cause no event if and only if it ends there and nothing is left or what is left begins with 0xff. |
| PrePointer.StrayDelivered | src/psi/mod.rs:438-454 | The rest of one section and any whole sections before the pointer are all delivered, ahead of those after it. |
| PrePointer.StrayDeliveredOnce | src/psi/mod.rs:438-454 | Such an input: a section of length 0 before the pointer is delivered. |
| PrePointer.DeframeMixedExactly | src/psi/mod.rs:422-589 | Over any legal packetisation that sends all of some sections, accepted or refused, a new framer tells of each once and in order and of nothing else if and only if no refused section of length 0 is split, except with stuffing behind it or at the end of the last packet. |
| Tables.ProgramIter.Next | src/psi/pat.rs:99-111 | Each call returns the next item of the list that the bytes stand for, and keeps the bytes of the others. |
| Tables.ProgramsRoundTrip | src/psi/pat.rs:50-111 | A list of PAT entries, encoded with any reserved bits, is read back; one to three bytes after it are one error, last. |
| Tables.ProgramsSplit | src/psi/pat.rs:99-111 | Any bytes give one entry for every four, in order, and an error exactly for a remainder. |
| Tables.StreamInfoIter.Next | src/psi/pmt.rs:121-138 | Each call returns the next item of the list that the bytes stand for; an error is the last. |
| Tables.PmtRoundTrip | src/psi/pmt.rs:54-172 | A PMT body encoded with any reserved bits gives back its PCR PID, its program descriptors and its streams. |
| Tables.StreamsRoundTrip | src/psi/pmt.rs:121-172 | A list of streams with any descriptors is read back. |
| Tables.StreamsSplit | src/psi/pmt.rs:121-172 | Any bytes are contiguous stream entries, each yielded in its place, and a rest that yields exactly one error if it is not empty. |
| Tables.StreamRule | src/psi/pmt.rs:153-172 | Which stream entries are cut short, in their header or their descriptors, with the numbers of each error. |
| Tables.PmtBodyRule | src/psi/pmt.rs:54-74 | Which program map bodies are, likewise. |
| Tables.StreamsThenRest | src/psi/pmt.rs:121-138 | Streams followed by what is no entry are read back, and then that one error. |
| Tables.DescriptorRule | src/descriptor/mod.rs:121-132 | A descriptor alone: its tag and payload, or which of two things is wrong. |
| Tables.DescriptorIter.Next | src/descriptor/mod.rs:309-336 | Each call returns the next item of the list that the bytes stand for; a framing error is the last. |
| Tables.DescriptorsRoundTrip | src/descriptor/mod.rs:120-132 | A list of descriptors with payloads of up to 255 bytes is read back. |
| Tables.DescriptorsSplit | src/descriptor/mod.rs:309-336 | Any bytes are descriptors that encode to exactly those bytes, then a truncated tail or none; the tail yields exactly one error. |
| Filters.FilterTable.Contains | src/demultiplex.rs:180-183 | True exactly for the PIDs of the map that the vector stands for. |
| Filters.FilterTable.Get | src/demultiplex.rs:186-192 | The filter of the map, in its own slot, or nothing; no index is out of bounds. |
| Filters.FilterTable.Put | src/demultiplex.rs:194-200 | The map with this one entry replaced; the vector never exceeds 8192 slots and other filters stay in their slots. |
| Filters.FilterTable.Drop | src/demultiplex.rs:202-206 | The map without this one entry. |
| Filters.FilterTable.ApplyQueue | src/demultiplex.rs:222-274 | Draining the queue applies its changes to the map in order. |
| Demultiplexer.Demultiplex.constructor | src/demultiplex.rs:733-744 | A new demultiplexer has one filter, the one its context constructs for PID 0. |
| Demultiplexer.Demultiplex.Obtain | src/demultiplex.rs:757-769 | Looking the filter up after constructing a missing one cannot fail, and changes no other entry. |
| Demultiplexer.Demultiplex.Process | src/demultiplex.rs:771-797 | One packet with the filter in hand is one simple step; if no change was queued the filter in hand is still the one in the table. |
| Demultiplexer.Demultiplex.Push | src/demultiplex.rs:748-810 | The nested loops with the cached filter do what folding one simple step over the packets does, up to the first chunk without a sync byte, for any filters and context. |
| Demultiplexer.OnePacket | src/demultiplex.rs:757-797 | For any filters, context and packet: a filter is constructed exactly if the PID has none, on request for that PID; a packet with the error bit or scrambled is reported and no more; any other is consumed by that filter alone, and each PID then has the filter of the last queued change that names it, or none if that removes it, or what it had if none names it. |
| Demultiplexer.ChunksExactly | src/demultiplex.rs:748-755 | The packets handled are those before the first chunk cut short or without the byte 0x47 in front. |
| Demultiplexer.PushSplit | src/demultiplex.rs:748-810 | Pushing a + b is pushing a and then b, when a is whole packets with sync bytes. |
| Processors.ConsumeGood | src/psi/mod.rs:281-322 | Every section that a section-syntax framer delivers has its declared length, the indicator set, and a length from 5 to 4093: what all later assertions and slices need. |
| Processors.Dedup.Admit | src/psi/mod.rs:624-637 | Passed on exactly if the version differs from the remembered one, and then remembered. |
| Processors.CheckedExactly | src/psi/mod.rs:151-176 | For every header and data the check passes them if and only if there are at least 12 bytes with a zero sum; which fault it is otherwise. |
| Processors.RelayedAreSound | src/psi/mod.rs:151-177 | Whatever is delivered, every table that reaches the processor has at least 12 bytes and a zero sum, and was delivered as it is. |
| Processors.CheckSection | src/psi/mod.rs:151-177 | The check with the table-driven loop rejects what is shorter than 12 bytes, then what has a non-zero CRC. |
| Processors.PipelineExact | src/psi/mod.rs:151-177 | Over any sequence of deliveries and resets, the table processor receives exactly the sections that do not repeat the version of the delivery before them since the last reset, and are then long enough with a zero CRC; everything else is reported in its place. |
| Processors.CorruptSectionSuppressesGood | src/psi/mod.rs:624-637 | Whatever came before, a good section delivered after a corrupt one is passed on if and only if its version differs. |
| TableProcessors.PatProcessor.Section | src/demultiplex.rs:636-664 | The length and table id checks with their errors, then the new table; the registered PIDs, the context and the queued changes are those of the specification. |
| TableProcessors.PatProcessor.AddPrograms | src/demultiplex.rs:594-623 | A filter is constructed and queued for every entry in order, entries in error are reported and passed over. |
| TableProcessors.PmtProcessor.Section | src/demultiplex.rs:400-425 | The same for a program map section, with its own parse error. |
| TableProcessors.PmtProcessor.AddStreams | src/demultiplex.rs:360-387 | A filter is constructed and queued for every stream in order. |
| Requests.TableAsks | src/demultiplex.rs:344-394 | A PAT or PMT section encoded from its entries, for any context: filters are constructed for exactly the requests that the entries say, in order (a program's PID and number, a network's PID, a stream with its program's PID and whole map); each PID then has the filter constructed for its last entry, PIDs only the table before named have none, all others what they had; and what is queued is the insertions, in order, and then removals only. |
| Requests.TableRecorded | src/demultiplex.rs:579-630 | For an application that writes down what it is asked, the list is exactly that, and each PID's filter is the one asked for it. |
| Requests.PatRule | src/demultiplex.rs:636-664 | The PAT processor takes a section if and only if its length is at most 1021 and its table id 0; which error otherwise. |
| Requests.PmtRule | src/demultiplex.rs:400-425 | The PMT processor, if and only if its length is at most 1021, its body can be read and its table id is 2; which error otherwise, the body coming before the table id. |
| Requests.PatThenBad | src/demultiplex.rs:596-603 | Bytes too many after the programs are reported after all programs were asked for. |
| Requests.PmtThenBad | src/demultiplex.rs:361-371 | And bytes that are no entry after the streams, with the program's PID. |
| Reconciliation.OutdatedAscends | src/demultiplex.rs:389-394 | The removals come in ascending order, each PID once. |
| TableProcessors.RemoveOutdated | src/demultiplex.rs:389-394 | Removals are queued for exactly the registered PIDs not seen in this table, ascending. |
| Reconciliation.FiltersOfIsLast | src/demultiplex.rs:615-618 | The filters a table builds are keyed by exactly the PIDs of its entries, each the one built for that PID's last entry. |
| Reconciliation.TableApplied | src/demultiplex.rs:579-630 | One table's changes, applied: its PIDs have the filters it built, PIDs only the table before named have none, the rest are untouched. |
| Reconciliation.TablesReconciled | src/demultiplex.rs:344-394 | Over any sequence of sections through one PAT or PMT processor, among all PIDs its tables ever named exactly the latest accepted table's have a filter, the one it built; other PIDs keep what they had; and every section rejected for its length, its table id or its body left all filters and registrations as they were. |
| TableFilters.HandleConcat | src/demultiplex.rs:428-430 | Events may be given to the chain of de-duplication, CRC check and processor in parts, with the same changes and final state. |
| TableFilters.FaultsCarryPid | src/demultiplex.rs:441-466 | Every error of a table filter's framer is reported with PID 0 for the PAT and the program's PID for a PMT. |
| TableFilters.CrcFaultsCarryPid | src/psi/mod.rs:169-175 | So are the errors of its CRC check, for every delivered section of at least 12 bytes with a non-zero sum; and no filter changes. |
| TableFilters.PatPacketFilter.ConsumePacket | src/demultiplex.rs:690-713 | Framer, de-duplication, CRC check and processor in their objects do, for every packet, what the composed specification does. |
| EndToEnd.TablePackets | src/demultiplex.rs:748-810 | Packets on a table filter's PID, whose tables avoid that PID, make the demultiplexer do what that filter does, with the queued changes applied as they come. |
| EndToEnd.TablesHandled | src/demultiplex.rs:579-664 | CRC-correct tables of successively differing versions all reach the processor, which takes them in turn. |
| EndToEnd.PatEndToEnd | src/demultiplex.rs:579-810 | Pushing any legal packetisation of such tables, whatever part has been sent so far, leaves among the PIDs they named exactly the latest complete table's filters, every other PID as it was, and PID 0 with its PAT filter. |
| EndToEnd.ExactlyTheLastTable | src/demultiplex.rs:579-810 | From a new demultiplexer, once all is sent, there are filters for PID 0 and the PIDs of the last table and no others. |
| AnyStream.TableAnyPackets | src/demultiplex.rs:344-810 | The same for a PAT or PMT filter on any PID. |
| AnyStream.PmtAnyPackets | src/demultiplex.rs:344-466 | Any packets of a program's PID at all, where its PMT filter is new and no accepted map names that PID, leave filters for exactly the streams of the latest map that reached the processor, among all that maps ever named; every other PID is as it was. |
| AnyStream.PatAnyPackets | src/demultiplex.rs:579-810 | Any packets of PID 0 at all, with losses, repeated versions, corrupt or rejected sections, pushed where the PAT filter is new and no accepted table names PID 0: among all PIDs that accepted tables named, exactly those of the latest table that reached the processor have a filter, the one it built; every other PID is as it was. |
| AnyStream.SectionsReaching | src/psi/mod.rs:151-642 | For any sections the framer accepts, in any legal packetisation, what reaches the processor is what version stutter, length and CRC leave of the sections completed, and nothing else. |
| AnyStream.OutputsReconciled | src/demultiplex.rs:344-394 | The same reconciliation for one PAT or PMT processor over any sequence of tables and faults. |
| AnyStream.RegisteredAre | src/demultiplex.rs:389-394 | The registered PIDs are those of the latest accepted table, whatever the context does. |
| Routing.Routed | src/demultiplex.rs:748-810 | With packets of any PIDs interleaved, if none queues a change to a PID, the filter there has consumed exactly the clear packets of that PID without transport error, in order, each in the context of its moment. |
| Routing.RoutedWhere | src/demultiplex.rs:759-766 | And a PID has a filter afterwards if and only if it had one or a packet of it came. |
| Routing.TableRouted | src/demultiplex.rs:690-810 | A PAT or PMT filter in an interleaved stream is in the state in which its own packets alone would leave it. |
| Routing.TableRegisters | src/demultiplex.rs:390-394 | And a new one has registered the PIDs of the latest table accepted from its own packets. |
| Routing.AppRouted | src/demultiplex.rs:748-810 | An application's own filter has consumed its own packets, each in the context of its moment. |
| TableSeries.SeriesRules | src/demultiplex.rs:344-810 | Any series of program associations on PID 0, or of a program's maps on its PID, none naming the PID it is sent on or repeating the version before it, encoded, sent as a byte stream and pushed: the application is asked in order for exactly what the entries say; each PID of the last table has the filter constructed for its last entry; PIDs only earlier tables named have none; all others are untouched. |
| WireTables.WireAccepted | src/psi/mod.rs:81-177 | A table section with its check word is accepted by framer and CRC check, and its fields, version and body are read. |
| Broadcast.DamagedCopySuppresses | src/psi/mod.rs:624-637 | For every section of any table that the framer accepts with a zero sum, and every burst of errors within 32 bits behind its headers, the damaged copy is delivered and fails the CRC check, and the intact copy after it is left out. |
| Broadcast.EncodedIsPat | src/demultiplex.rs:636-664 | Any list of up to 253 entries, encoded as a section with its check word, is accepted by framer, CRC check and processor, with its version. |
| Broadcast.EncodedNames | src/psi/pat.rs:50-111 | Such a section names exactly the PIDs of its entries. |
| Broadcast.PlanSendsAll | src/psi/mod.rs:422-589 | Any sections have a legal plan that sends them all in payloads of exactly 184 bytes, with no stuffing before the last one. |
| Broadcast.LastTableRules | src/demultiplex.rs:733-810 | Any series of tables, none naming PID 0 or repeating the version before it, sent as a byte stream and pushed at a new demultiplexer, leaves filters for exactly PID 0 and the PIDs of the last table's entries. |
| Broadcast.Receive | src/demultiplex.rs:733-810 | The same of the objects: a demultiplexer made and given that stream has these filters. |
| Pes.PesPacketFilter.ConsumePacket | src/pes.rs:88-168 | The calls, the reports and the state after every packet are those of the specification, discontinuities, missing and malformed payloads included. |
| Pes.StepExactly | src/pes.rs:88-168 | From every state, for every packet, read from its bits: exactly when each call and each report happens, each at most once, and the state left; begin_packet for exactly the start payloads of six bytes or more that begin 0, 0, 1. |
| Pes.PesRoundTrip | src/pes.rs:113-336 | PES packets written from their start code on, and cut into payloads in any way that leaves the six bytes whole, are collected by a new filter as exactly those packets. |
| Pes.StartStreamFirst | src/pes.rs:113-130 | Over every run, start_stream is only ever the first call, so it occurs at most once. |
| Pes.CallsFollowProtocol | src/pes.rs:113-168 | If the header of every start packet parses, then over every run with any losses each continue_packet and end_packet falls inside a begin_packet not cut off by a continuity_error since, and end_packet and start_stream are followed by begin_packet. |
| Pes.InStepExactly | src/pes.rs:113-168 | At every point of a run the consumer has had a lawful sequence of calls and stands where the filter takes it to stand, if and only if every start packet carries a header that parses. |
| Pes.LawfulExactly | src/pes.rs:113-168 | The calls are lawful at every point of a run, whatever well-formed packet comes next there, if and only if every start packet of the run carries a header that parses. |
| Pes.UnparsedStartStillContinues | src/pes.rs:129-151 | The failing case: after a start packet with a bad header the next payload is handed over although nothing was begun. |
| Pes.PayloadsConserved | src/pes.rs:113-168 | Over any continuity-correct run with payloads in bounds and headers that parse, the bytes of each begin_packet and its continue_packets are exactly the payloads from that start packet up to the next, joined. |
| Pes.PayloadsConservedAnyway | src/pes.rs:113-168 | The same over every run whose start headers parse, whatever was lost or malformed: what is collected is exactly, for each start packet, its payload and those after it up to the next start packet or discontinuity. |
| Pes.LossDetected | src/pes.rs:88-103 | Packets missing from inside a continuity-correct stream raise continuity_error at the next packet if and only if the number of payloads lost is not a multiple of 16. |
| Clocks.StampRoundTrip | src/pes.rs:1281-1331 | Decoding a time stamp inverts its encoder on all 33-bit values; the PTS and DTS decoders do so with their prefixes. |
| Clocks.StampUnique | src/pes.rs:1307-1331 | Five bytes that decode give a 33-bit value and are its encoding with their own prefix bits. |
| Clocks.StampRule | src/pes.rs:1281-1331 | Which five bytes are refused, by the first clear marker bit or by their prefix, with the numbers of each error. |
| Clocks.WrapDetectedExactly | src/pes.rs:1343-1350 | For every elapsed time below the period, `likely_wrapped_since` is true if and only if the counter wrapped and no more than 2^32 ticks passed. |
| Clocks.ClockRoundTrip | src/packet.rs:110-120 | Decoding PCR or OPCR inverts its encoder, whatever the reserved bits. |
| Clocks.EscrRoundTrip | src/pes.rs:1023-1041 | The same for the layout that ESCR and SCR share. |
| Clocks.EscrNeverPanics | src/packet.rs:122-126 | The range assertions of a clock reference hold for the ESCR or SCR of any six bytes. |
| Layouts.WalkWritten | src/packet.rs:280-316 | Reading a flag-driven layout front to back inverts writing it, for every layout of fixed and counted fields and whatever bytes follow. |
| Layouts.WalkCovers | src/pes.rs:967-1186 | Conversely, what a complete reading finds, written again and followed by the unread bytes, is all the bytes: fields are consecutive and disjoint. |
| AdaptationFields.GettersAreSequential | src/packet.rs:233-316 | For every buffer, also one cut short or with a length byte that points past its end, the getters with their recomputed offsets find what one sequential reading finds. |
| AdaptationFields.FieldRoundTrip | src/packet.rs:199-316 | Encoding then decoding is the identity on flags, PCR, OPCR, splice countdown, private data and extension, for every combination, any reserved bits and any stuffing. |
| AdaptationFields.FieldsRefused | src/packet.rs:233-316 | Which fields are not present, by the flag bits, and which lack data. |
| AdaptationFields.ExtensionFieldsRefused | src/packet.rs:357-419 | The same of the extension, and the splice's time stamp error. |
| AdaptationFields.FieldNeverEmpty | src/packet.rs:199-202 | The constructor's assertion never fails for a packet's adaptation field. |
| AdaptationFields.CarryBothBack | src/packet.rs:653-717 | A packet that carries an adaptation field and a payload gives both back. |
| AdaptationFields.ExtensionGettersAreSequential | src/packet.rs:357-419 | The getters of the extension agree with one sequential reading, for every buffer. |
| AdaptationFields.ExtensionRoundTrip | src/packet.rs:375-419 | Legal time window (valid or not), piecewise rate and seamless splice are read back, for every combination. |
| PesHeaders.AcceptedExactly | src/pes.rs:891-911 | A PES header is accepted exactly if the check bits are right and the declared header is in the buffer and holds every announced field; the length mismatch is reported exactly if some field is short. |
| PesHeaders.RefusedBecause | src/pes.rs:891-911 | Why a header is refused, read from its bytes, by the first check it fails. |
| PesHeaders.FieldsRefused | src/pes.rs:1134-1197 | Copy info without its marker bit and an extension without bytes are refused, each with its error. |
| PesHeaders.GettersAreSequential | src/pes.rs:967-1186 | On every accepted header the getters up to the CRC find what one sequential reading finds; the invalid value of the PTS and DTS flags is told from their absence. |
| PesHeaders.AcceptedLayout | src/pes.rs:953-1211 | Once accepted, no getter up to the CRC lacks data, and fields, extension or stuffing, and payload are consecutive, disjoint and all the bytes. |
| PesHeaders.ValuesInRange | src/pes.rs:1023-1063 | The assertions on ES rate and ESCR hold for every accepted header. |
| PesHeaders.TrickModeBack | src/pes.rs:1078-1119 | Every trick mode is read back with all the fields that its variant keeps. |
| PesHeaders.PrefixesUnchecked | src/pes.rs:1001-1016 | On every accepted header the stamps are what the prefix-checking decoders give if and only if the prefixes are right. |
| PesHeaders.WrongPrefixDecodes | src/pes.rs:1001-1016 | A header whose only stamp has a wrong prefix is accepted and the stamp decoded. |
| PesHeaders.HeaderRoundTrip | src/pes.rs:891-1211 | Any subset of PTS or PTS and DTS, ESCR, ES rate, trick mode, copy info, CRC and extension, with indicators, stuffing and payload, is accepted and decodes to what was written. |
| PesExtensions.GettersAreSequential | src/pes.rs:682-797 | For every buffer, the getters of private data, pack header, sequence counter and P-STD buffer find what one sequential reading finds, a field too short for its bytes included. |
| PesExtensions.SecondIsSequential | src/pes.rs:799-856 | For every buffer, the stream id extension and TREF getters agree with reading on from there, with each kind of error; at most one has a value. |
| PesExtensions.NotEnoughIsExact | src/pes.rs:682-856 | Each getter of a field's bytes, and of the nested part, that lacks data names the bytes there are and the bytes it asks for, and with bytes added the complaint remains exactly while there are fewer than it asked for. |
| PesExtensions.PackHeaderLacks | src/pes.rs:585-756 | The pack header lacks data if and only if its field does, when the complaint is as above, or its field has fewer than 14 bytes, when the complaint is `NotEnoughData` with 14 and the length of the field, and the same with any bytes added. |
| PesExtensions.ShortPackField | src/pes.rs:585-591 | Such a field, of one byte in a buffer of five. |
| PesExtensions.FieldsRefused | src/pes.rs:738-856 | Which fields are refused for their marker bits and which are not present, by the bits. |
| PesExtensions.PackRule | src/pes.rs:585-604 | Which bytes are a pack header, and the error of the others. |
| PesExtensions.PackBack | src/pes.rs:585-636 | A pack header with its clock reference, mux rate and stuffing length is read back. |
| PesExtensions.ExtensionRoundTrip | src/pes.rs:656-856 | Every combination of the parts of a PES extension is read back. |

## Left out

- PIDs inside framer errors: every error of a framer carries that framer's own PID; the model adds it when the error reaches the context.
- `PmtPacketFilter` as a class: it is `PatPacketFilter` around the other processor; its processor is a class and its composition is covered by `ConsumeTable` for program map tables.
- Filter changes queued by the application's `construct` function: it is taken to return a filter and a context and to queue nothing.
- The changeset as a field of the context: a filter returns the changes it queues, and they are applied when it is done with the packet.
- `fixedbitset` is a set of PIDs; its difference iterates in ascending order.
- Byte buffers borrowed from the caller are values; that the fast path does not copy is not a property of the model, only that it gives the same result.
- Tables that name the PID they come on, or each other's PIDs, which can undo one another: the end-to-end theorems exclude the first, and speak of streams of one PID; with other PIDs between, `Routing` has the state of each filter, not the whole filter map.
- `TsdtPacketFilter` and `TsdtProcessor`: a subset of the PAT path.
- The fixed six-byte PES header beyond its acceptance: stream id, packet length, and the choice by stream id of whether a header follows.
- Constructors of individual descriptor kinds, `descriptor_len`, stream type and stream id names, language, registration and AVC details: single lookups.
- Sections of more than one part, descrambling, duplicate packets, and the discontinuity indicator: the library does not act on them.
- The bypass of the CRC check in fuzzing builds, `Debug` and `Display` output, and the text of errors.
- Capacity and memory use of vectors; integers are unbounded, and every field is bounded by its width.
