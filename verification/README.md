# Detector readout and reconstruction: a verified model

This project models the stateful and arithmetic core of the repository and proves what it
is for. `dafny verify dfyconfig.toml` checks everything.

* **Binary decoders** (`Words`, `FemHeader`, `DeltaCode`, `TpcSpec`, `TpcHuffman`,
  `TpcChannels`, `TpcRoundTrip`, `TpcStray`, `TpcTail`, `TpcWords`, `TpcExamples`, `TpcWaveforms`, `TpcPayload`,
  `TpcGate`, `TpcXmit`, `TpcXmitLanguage`, `PmtSpec`, `PmtXmit`, `PmtPackets`, `PmtRoundTrip`, `PmtCuts`, `PmtWords`,
  `PmtExamples`, `PmtGate`, `WordClasses`, `Received`, `Streams`, `Machine`). 32-bit words are classified, split low half
  first, gathered into a six-word header and channel blocks, and stored when count and checksum
  agree. Each decoder is a class whose methods are proved to do what a state machine on values
  says. About the Huffman TPC machine and the PMT machine whole-stream round trips are proved
  against a specification encoder, with the exact condition under which a packet survives, and
  for both a safety theorem about arbitrary, corrupted streams: headers, counters and samples
  that are stored are those of words received. Which words are refused, and how debug mode goes on
  behind one, is told in plain numbers. Of the plain TPC decoder the accepted language
  is characterised.
* **Waveform compression** (`Compress`, `CompressWindows`). The incremental algorithm and
  the one that recomputes its variance for every sample emit the same pieces; which samples
  are recorded is characterised exactly.
* **Fourier transform** (`ComplexSums`, `Fft`). The in-place Cooley-Tukey recursion equals
  the transform's defining sum exactly for power-of-two lengths, and its inverse undoes it.
* **Cluster merging** (`ClusterBooks`, `ClusterMerge`, `ClusterMergeAlg`, `ClusterReruns`,
  `ClusterOpeners`, `ClusterChains`, `ClusterCompare`, `SegmentDistance`). A redundant index and a
  list of sets, built pair by pair; when its result is a partition and when all compatible
  clusters end together, told from the input; and the meaning of the distance test behind it.
* **Hough accumulator** (`Hough`, `HoughRuns`). A sparse vote table with adding and undoing.
* **Segment crossing** (`Segments`).

## How the model reads the program

A 32-bit word is a pair of 16-bit halves; masks and shifts are divisions and remainders by
powers of two; unsigned counters wrap at 2^32. `storage_manager::next_event` appends to a
log and returns true, `get_data` never returns null, and a data class keeps the fields a
decoder sets. `FEM::INVALID_WORD` is 0xffffffff. An outcome tells acceptance, refusal, an
exception, and behaviour the language leaves undefined (a null event pointer, a header
buffer overrun); after the latter nothing is claimed. Floating-point numbers are reals,
`std::polar(1, -2 pi k / N)` is a family of factors with its algebraic laws, and the Hough
distances are an arbitrary integer function of angle row and point.

## What the proofs found

* A TPC packet with an all-ones 24-bit header field (a checksum of 0xffffff, say) is lost:
  inside a header the word is taken for samples. The PMT decoder refuses it.
* An aligned pair of zero samples is skipped before counting, which loses the packet.
* `process_fem_header` of the base class tests the class of the word itself where its
  comment speaks of the previous word; the code is followed. It therefore takes a header
  behind a PMT packet that was cut off, and the pulses which that packet left in the buffer
  are stored under the next packet's header, its count and checksum being in order. This
  happens to a packet exactly when pulses are left.
* A PMT pulse that was cut off leaves its words counted, because a channel header does not
  clear the count. With the overflow check on, the next packet can be refused for it.
* The TPC decoder accepts channels between packets, where there is no header. They are stored,
  without module numbers, in front of the next packet's own, outside its count and checksum.
* The Huffman decoder stores a packet whose checksum is the sum of its words plus 0x503f. A
  packet whose last word is missing is therefore stored exactly when its last channel is
  number 63, at the end word or at the next packet's header.
* A PMT pulse without a channel header loses its first word: no frame is read from it, and the
  time counts from the invalid value.
* The angle test of the cluster comparison takes 180 and -180 degrees for different lines.
* The TPC decoder stores an empty event without a header when an event marker is followed by the end word.
* `GetIntersection` divides by `s2 - s1` where the lines' equations need `s1 - s2`, so the
  point is mirrored in the vertical axis; it is right exactly when both lines cross that
  axis at the same height.
* `SegmentOverlap` decides touching segments by their direction.
* In the variance compression the sample at trigger + post is suppressed but not recorded,
  so that a sample above the cut can be lost.
* `ShortestDistanceSquared` takes a segment below the limit for its start point.
* `fft` is not a Fourier transform for any length that is not a power of two.
* Compatible clusters can end in different sets (with a complaint): exactly when a chain of
  compatible pairs joins two clusters that opened sets.
* The sets of `ProcessMergeAlg` partition its input exactly when no cluster of it is marked as
  placed before; a second run on the same input returns no sets.
* Clusters that cross far from their ends fail the distance test.

## Model

| member | source | states |
|---|---|---|
| `FemHeader.RollOverThrows` | NevisDecoder/Algorithm/algo_fem_decoder_base.cc:364-420 | the roll-over correction throws exactly when the low-bit distance is half a period, for every 32-bit reference and subject |
| `FemHeader.RollOverSound` | NevisDecoder/Algorithm/algo_fem_decoder_base.cc:364-420 | otherwise the result agrees with the subject on the low bits and lies strictly within half a period of the reference, on the circle of 32-bit values |
| `FemHeader.RollOverRecovers` | NevisDecoder/Algorithm/algo_fem_decoder_base.cc:364-420 | a frame number comes back from its low 3 or 4 bits if and only if it is strictly within half a period of the reference |
| `FemHeader.RollOverUnsupported` | NevisDecoder/Algorithm/algo_fem_decoder_base.cc:364-420 | for any number of bits but 3 and 4 it throws |
| `FemHeader.FieldRoundTrip` | NevisDecoder/Encoder/pmt_slow_encoder.cc:38-58 | a 24-bit header field survives packing into two 12-bit halves |
| `FemHeader.FieldMarker` | NevisDecoder/Encoder/pmt_slow_encoder.cc:38-58 | its word is the 0xffffffff event marker exactly when all its bits are ones |
| `FemHeader.TriggerWordRoundTrip` | NevisDecoder/Encoder/pmt_slow_encoder.cc:60-65 | the trigger word gives back four bits of the frame and the 12-bit sample number |
| `FemHeader.TriggerBits` | NevisDecoder/Algorithm/algo_fem_decoder_base.cc:326-333 | of any word the decoder takes bits 4 to 7 for the trigger frame |
| `FemHeader.DecodeEncoded` | NevisDecoder/Algorithm/algo_fem_decoder_base.cc:283-360 | decoding the six encoded words gives the header with the trigger frame that four bits determine, or throws |
| `FemHeader.HeaderRoundTrip` | NevisDecoder/Algorithm/algo_fem_decoder_base.cc:283-360 | encode then decode is the identity on a header if and only if its fields fit their bits and the trigger frame is within 7 of the event frame |
| `FemHeader.DecodedFits` | NevisDecoder/Algorithm/algo_fem_decoder_base.cc:283-360 | whatever six words come in, decoded fields have the width of their bits |
| `FemHeader.DecodeFemHeader` | NevisDecoder/Algorithm/algo_fem_decoder_base.cc:283-360 | field after field is decoded from the six words; the fields before the trigger frame are assigned even when that throws |
| `FemHeader.CleanWords` | NevisDecoder/Encoder/pmt_slow_encoder.cc:30-67 | a header word equals the 0xffffffff event marker exactly when one of the four 24-bit fields is all ones |
| `FemHeader.SlowEncoder.EncodeEventHeader` | NevisDecoder/Encoder/pmt_slow_encoder.cc:30-67 | six words are put at the current index, which advances by six; the rest of the buffer stays |
| `DeltaCode.AddHuffmanAdc` | NevisDecoder/Algorithm/algo_fem_decoder_base.cc:423-462 | one sample is appended: the last one moved by the step the number of zeros stands for, modulo 2^16; seven or more zeros are refused and nothing is appended |
| `DeltaCode.DecodeChWord` | NevisDecoder/Algorithm/algo_tpc_xmit.cc:337-448 | the bit loop computes the recursive decoding of the 14 payload bits, most significant first, with raw words and the empty-waveform error |
| `DeltaCode.DecodeExactness` | NevisDecoder/Algorithm/algo_tpc_xmit.cc:358-436 | a compressed word on a non-empty waveform fails if and only if some one bit follows at least seven zeros; otherwise it appends as many samples as there are one bits, each within 3 of the one before modulo 2^16 |
| `DeltaCode.CodesRoundTrip` | NevisDecoder/Algorithm/algo_tpc_xmit.cc:361-436 | decoding the codes of any steps in -3..3, behind any waveform and before any zero fill, appends their running sums |
| `DeltaCode.ItemsDecode` | NevisDecoder/Algorithm/algo_tpc_xmit.cc:337-448 | the words of any list of raw samples and code groups that starts raw decode to the samples it means |
| `DeltaCode.EncodeDecode` | NevisDecoder/Algorithm/algo_tpc_xmit.cc:337-448 | every 12-bit waveform is rebuilt from the words of the greedy encoder, which never splits a code |
| `TpcHuffman.Decoder.CheckEventQuality` | NevisDecoder/Algorithm/algo_tpc_huffman.cc:223-264 | accepts exactly equal counts with a sum that agrees in 24 bits or is short by 0x503f; the latter permits a missing last word |
| `TpcHuffman.Decoder.StoreEvent` | NevisDecoder/Algorithm/algo_tpc_xmit.cc:295-334 | logs header and channels when the check passes, and clears the event either way |
| `TpcHuffman.Decoder.ProcessChWord` | NevisDecoder/Algorithm/algo_tpc_huffman.cc:366-511 | the whole new state after one 16-bit word, all branches: padding, opening, closing with early store, samples, counters |
| `TpcHuffman.Decoder.ProcessFemHeader` | NevisDecoder/Algorithm/algo_tpc_huffman.cc:266-312 | the whole new state after a header word, including the throw of the sixth and the overrun of a seventh |
| `TpcHuffman.Decoder.ProcessEventLastWord` | NevisDecoder/Algorithm/algo_tpc_huffman.cc:314-351 | the whole new state after an end-of-event word |
| `TpcHuffman.Decoder.ProcessWord` | NevisDecoder/Algorithm/algo_tpc_huffman.cc:28-197 | the whole new state and outcome after one 32-bit word is the state machine's step |
| `TpcHuffman.Decoder.Decode` | NevisDecoder/Algorithm/algo_tpc_huffman.cc:28-197 | a loop over words that stops at the first one not accepted is the state machine's run |
| `TpcChannels.BlocksRun` | NevisDecoder/Algorithm/algo_tpc_huffman.cc:366-511 | feeding the 16-bit words of any channel blocks whose header announces them stores exactly one event with those channels, at the very last word, if the sum passes the gate, and refuses that word with nothing stored otherwise |
| `TpcChannels.PairsRun` | NevisDecoder/Algorithm/algo_tpc_huffman.cc:108-165 | feeding 32-bit words packed low half first is feeding their 16-bit words, with the padding of an odd length skipped, unless some pair is zero |
| `TpcRoundTrip.HeaderRun` | NevisDecoder/Algorithm/algo_tpc_huffman.cc:266-312 | six header words that are not event markers install the header they decode to and clear the counters, or throw |
| `TpcRoundTrip.PacketRoundTrip` | NevisDecoder/Algorithm/algo_tpc_huffman.cc:28-511 | wherever no header is at hand or under way, a well-formed packet adds exactly itself to the log if and only if no 24-bit header field is all ones, no aligned word pair is zero, the trigger frame is within 7 of the frame, the event buffer is empty, and the last word (or the missing-last-word flag) admits a header |
| `TpcRoundTrip.DirtyPacketLost` | NevisDecoder/Algorithm/algo_tpc_huffman.cc:28-197 | an all-ones header field, such as a checksum of 0xffffff, makes the decoder store nothing of the packet, unless its counters were left at a zero count with a non-zero sum |
| `TpcRoundTrip.DirtyPacketStray` | NevisDecoder/Algorithm/algo_tpc_huffman.cc:28-197 | even then the words of such a packet add no event that has a header |
| `TpcRoundTrip.MisplacedPacketLost` | NevisDecoder/Algorithm/algo_tpc_huffman.cc:266-312 | a packet in a place where no header word is admitted is refused with nothing stored |
| `TpcRoundTrip.ZeroPairPacketLost` | NevisDecoder/Algorithm/algo_tpc_huffman.cc:28-197 | an aligned pair of zero samples is dropped, so that the packet never reaches its count and nothing is stored |
| `TpcRoundTrip.ThrowingPacketLost` | NevisDecoder/Algorithm/algo_fem_decoder_base.cc:364-420 | a trigger frame half a period away ends the run by exception with nothing stored; the fields before the trigger frame stay decoded |
| `TpcRoundTrip.ChecksumExactly` | NevisDecoder/Algorithm/algo_tpc_huffman.cc:223-264 | with any clean 24-bit checksum in its header, a packet is stored, behind whatever channels were in the buffer, if and only if the checksum is the sum of its own words or the sum plus 0x503f, modulo 2^24; otherwise the log is unchanged |
| `TpcExamples.ShortSumStored` | NevisDecoder/Algorithm/algo_tpc_huffman.cc:223-264 | a packet whose words sum to 0x9001 is stored with checksum 0xe040 but not with 0x9002 |
| `TpcExamples.DirtyPacket` | NevisDecoder/Algorithm/algo_tpc_huffman.cc:28-197 | a packet with event number 0xffffff is lost |
| `TpcExamples.ZeroPairPacket` | NevisDecoder/Algorithm/algo_tpc_huffman.cc:28-197 | a packet with two samples of zero in one 32-bit word is lost |
| `TpcExamples.ThrowingPacket` | NevisDecoder/Algorithm/algo_fem_decoder_base.cc:364-420 | a packet with trigger frame 8 and event frame 0 ends the run by exception, with nothing stored |
| `TpcStray.StrayRun` | NevisDecoder/Algorithm/algo_tpc_huffman.cc:366-511 | any channels sent behind a packet with no header of their own are accepted; they are not stored, but stay in the buffer without module numbers |
| `TpcStray.StrayStored` | NevisDecoder/Algorithm/algo_tpc_huffman.cc:28-511 | the carried packet behind them is stored with those channels in front of its own, its count and its checksum being in order |
| `TpcExamples.StrayBetween` | NevisDecoder/Algorithm/algo_tpc_huffman.cc:28-511 | the two words 0x00054001 and 0x00005001 between two packets: the second is stored with channel 1, sample 5, module numbers 0xff, in front |
| `TpcTail.TailEnds` | NevisDecoder/Algorithm/algo_tpc_huffman.cc:141-146 | a packet whose last 16-bit word is missing (its other words filling whole 32-bit words): all of it is accepted with nothing stored yet; the end word then stores it, its unclosed last channel included, if and only if that channel is number 63, and is refused with nothing stored otherwise |
| `TpcTail.TailThenPacket` | NevisDecoder/Algorithm/algo_tpc_huffman.cc:98-131 | the same at the header of a carried packet, which is admitted although no channel was closed before it, and is stored as well; for any other number that header is refused |
| `TpcTail.TailStored` | NevisDecoder/Algorithm/algo_tpc_huffman.cc:98-151 | so in an empty buffer a packet that ends in a channel 63 with samples comes back whole, before an end word and before a packet |
| `TpcExamples.TailOne` | NevisDecoder/Algorithm/algo_tpc_huffman.cc:141-146 | the data word 0x0005403f and the end word: channel 63 is stored with sample 5, although nothing closed it |
| `WordClasses.HuffmanWords` | NevisDecoder/Algorithm/algo_tpc_huffman.hh:18-47 | the values of a 32-bit word that the Huffman TPC decoder takes for a marker, a header, a channel's first or last word, data |
| `TpcWords.OpeningExactly` | NevisDecoder/Algorithm/algo_tpc_huffman.cc:366-511 | a channel is opened, blank but for its number, exactly behind a header or a channel's last word; elsewhere its first word is refused |
| `TpcWords.ClosingExactly` | NevisDecoder/Algorithm/algo_tpc_huffman.cc:366-511 | while words are still due, a last word with the open channel's number stores it with its samples and module numbers; one with any other number is refused |
| `TpcWords.DataExactly` | NevisDecoder/Algorithm/algo_tpc_huffman.cc:366-511 | any other 16-bit word: zero behind a last word is passed over; 0xc000 there, codes without a sample before them and codes with seven zeros before a one are refused; other words outside the coded range append their low 12 bits |
| `TpcWords.HeaderWordExactly` | NevisDecoder/Algorithm/algo_tpc_huffman.cc:266-312 | while no header is at hand a header word is refused exactly if its upper half is none, or if it comes neither behind a marker, a header word or a channel's last word nor under the missing-last-word flag, which is lowered |
| `TpcWords.EndWordExactly` | NevisDecoder/Algorithm/algo_tpc_huffman.cc:133-351 | the end word is accepted behind a channel's last word when the event is stored with it or no header is at hand, elsewhere when a last word is known or found to be missing, and refused in all other cases |
| `TpcWords.RefusedExactly` | NevisDecoder/Algorithm/algo_tpc_huffman.cc:28-197 | a refused word leaves no header, no channels and no samples, and in debug mode starts the search |
| `TpcWords.Recovers` | NevisDecoder/Algorithm/algo_tpc_huffman.cc:28-197 | in debug mode any words behind a refused one are passed over up to an event marker right behind an end word, and every event of carried packets from there on is stored |
| `TpcRoundTrip.StreamRoundTrip` | NevisDecoder/Algorithm/algo_tpc_huffman.cc:28-511 | a fresh decoder accepts every word of any stream of events of carried packets and logs exactly one event per packet, in order, with the same header, channels and samples |
| `TpcRoundTrip.PaddedRoundTrip` | NevisDecoder/Algorithm/algo_tpc_huffman.cc:54-56 | the same with any number of zero words behind packets and behind end words |
| `TpcWaveforms.CodedChannels` | NevisDecoder/Algorithm/algo_tpc_xmit.cc:337-448 | the channels stored for delta-coded traces are the traces themselves |
| `TpcWaveforms.CodedCarried` | NevisDecoder/Algorithm/algo_tpc_huffman.cc:28-197 | a packet of at least one trace, with fields that fit and words that 24 bits count, is well formed, and carried if and only if its header is |
| `TpcWaveforms.Replay` | NevisDecoder/Algorithm/algo_tpc_huffman.cc:28-511 | a new decoder object fed such a stream ends with exactly the expected log |
| `TpcGate.StepFair` | NevisDecoder/Algorithm/algo_tpc_huffman.cc:28-197 | one word of any kind keeps the ledger unless the program stops: every logged event accounted for, gathered header words among those received, and, while a header is at hand, both counters those of words received after its sixth word, which also spell the channels closed since and the open one |
| `TpcGate.NothingUnbacked` | NevisDecoder/Algorithm/algo_tpc_huffman.cc:28-511 | for every sequence of words, malformed and refused ones included, each logged event either has the header that six received words decode to, its checksum (or sum short by 0x503f) and its word count (or one more, ending in a channel's last word) backed by words received after them, or was stored with no header at hand; its channels are first those closed with no header at hand, with module numbers 0xff, then those with the header's, each with the number of its opening word (0xffff without one) and the samples decoded from its words, in order and without reuse, the latter from the very words that were counted and summed |
| `TpcGate.HeaderlessExactly` | NevisDecoder/Algorithm/algo_tpc_huffman.cc:28-511 | with no header at hand a word stores an event if and only if it is the end word, or brings a matching channel's last word, while an event buffer exists, the count is zero and the sum passes for zero |
| `TpcGate.PhantomEvent` | NevisDecoder/Algorithm/algo_tpc_huffman.cc:133-151 | an event marker followed by the end word stores an empty event without a header and is then refused |
| `TpcGate.RunEndures` | NevisDecoder/Algorithm/algo_tpc_huffman.cc:28-197 | the run that stops at the first refused word is covered by that theorem: it is the longer run over a prefix |
| `TpcRoundTrip.TpcSound` | NevisDecoder/Algorithm/algo_tpc_huffman.cc:28-197 | the Huffman TPC decoder is such a decoder for carried packets |
| `TpcXmit.Decoder.ProcessChWord` | NevisDecoder/Algorithm/algo_tpc_xmit.cc:33-182 | the whole new state and outcome after one channel word of the plain decoder |
| `TpcXmit.Decoder.CheckEventQuality` | NevisDecoder/Algorithm/algo_tpc_xmit.cc:185-210 | accepts exactly equal counts and equal low 24 bits of the sum |
| `TpcXmit.Decoder.StoreEvent` | NevisDecoder/Algorithm/algo_tpc_xmit.cc:295-334 | logs header and channels exactly when the check passes, and clears the event either way |
| `WordClasses.PlainWords` | NevisDecoder/Algorithm/algo_tpc_xmit.hh:49-69 | the values of a 32-bit word that the plain TPC decoder takes for what |
| `TpcXmitLanguage.RefusedExactly` | NevisDecoder/Algorithm/algo_tpc_xmit.cc:33-182 | which words are refused, in plain numbers; a refused one empties the event, is counted nowhere, and is remembered if it is of a known kind |
| `TpcXmitLanguage.AcceptedExactly` | NevisDecoder/Algorithm/algo_tpc_xmit.cc:33-182 | after a FEM header, a run of words is accepted if and only if it is a prefix of (header, data words, last word with the same channel) repeated, every data word decoding; otherwise it is refused and the event buffer emptied |
| `TpcXmitLanguage.StoredExactly` | NevisDecoder/Algorithm/algo_tpc_xmit.cc:33-182 | after an accepted run the buffer holds exactly the complete blocks in order with decoded samples and module numbers; count and checksum are the number and the 32-bit sum of the words |
| `TpcXmitLanguage.WrittenExactly` | NevisDecoder/Algorithm/algo_tpc_xmit.cc:185-334 | from cleared counters the event is written if and only if the header has the number of words and the low 24 bits of their sum |
| `TpcXmitLanguage.EventsApart` | NevisDecoder/Algorithm/algo_tpc_xmit.cc:275-334 | for any list of headers with cleared counters, each followed by any words and by storing when these are accepted: each event is written with the channels of its own words exactly when they are accepted and have the header's count and checksum; nothing is left over from an event that was stored, refused by its check, or broken off by a refused word |
| `TpcXmitLanguage.TwoEvents` | NevisDecoder/Algorithm/algo_tpc_xmit.cc:275-334 | two announced lists of blocks one after the other are written as two events, each with its own channels |
| `PmtXmit.Decoder.DecodeChWord` | NevisDecoder/Algorithm/algo_pmt_xmit.cc:238-432 | the whole new state after one channel word: header, two time words, samples with bit markers, padding, headerless continuation, last word |
| `PmtXmit.Decoder.StoreChData` | NevisDecoder/Algorithm/algo_pmt_xmit.cc:434-446 | the current pulse with its module numbers is appended and a new one begun |
| `PmtXmit.Decoder.CheckEventQuality` | NevisDecoder/Algorithm/algo_pmt_xmit.cc:80-108 | the count less one and the 24-bit sum are compared with the header |
| `PmtXmit.Decoder.ProcessFemLastWord` | NevisDecoder/Algorithm/algo_pmt_xmit.cc:139-170 | stores after a last word or padding, refuses elsewhere |
| `PmtXmit.Decoder.ProcessFemHeader` | NevisDecoder/Algorithm/algo_fem_decoder_base.cc:189-281 | the whole new state after a header word in the base class, which tests the class of the word itself where its own comment speaks of the previous one |
| `PmtXmit.Decoder.ProcessWord` | NevisDecoder/Algorithm/algo_fem_decoder_base.cc:39-187 | the whole new state and outcome after one 32-bit word |
| `PmtXmit.Decoder.Decode` | NevisDecoder/Algorithm/algo_fem_decoder_base.cc:39-187 | a loop over words is the state machine's run |
| `PmtPackets.ShotRun` | NevisDecoder/Algorithm/algo_pmt_xmit.cc:238-446 | the words of one pulse, of any length and with its padding, store exactly that pulse with the frame its three bits give, behind any unfinished pulse; or its frame throws, or the overflow check, which goes on counting the unfinished pulse's words, refuses a word |
| `PmtPackets.ShotsRun` | NevisDecoder/Algorithm/algo_pmt_xmit.cc:238-446 | the same for any list of pulses, counters included |
| `PmtRoundTrip.PacketPaired` | NevisDecoder/Algorithm/algo_fem_decoder_base.cc:107-143 | padding of odd pulses puts the FEM's last word in an upper half in every packet, where alone the base class looks for it |
| `PmtRoundTrip.PacketRun` | NevisDecoder/Algorithm/algo_fem_decoder_base.cc:39-187 | what any well-formed packet leaves in the log, whatever its frames, from any state in which a header may begin: pulses left in the buffer are stored with its own |
| `PmtRoundTrip.PulsesSent` | NevisDecoder/Algorithm/algo_pmt_xmit.cc:238-432 | the stored pulses are the sent ones if and only if every pulse frame is within 3 of the event frame |
| `PmtRoundTrip.PacketRoundTrip` | NevisDecoder/Algorithm/algo_pmt_xmit.cc:52-446 | wherever a header may begin, a well-formed packet adds exactly itself to the log if and only if no 24-bit header field is all ones, the trigger frame is within 7 and every pulse frame within 3 of the event frame, no pulse was left in the buffer, and no words counted of an unfinished pulse make the overflow check refuse a word of its first pulse |
| `PmtCuts.CutRun` | NevisDecoder/Algorithm/algo_pmt_xmit.cc:238-446 | a carried packet whose last 32-bit word is missing: every word is accepted and nothing stored; its complete pulses stay in the buffer, and if the cut fell inside the last pulse, the count of that pulse's words stays too |
| `PmtCuts.BehindCut` | NevisDecoder/Algorithm/algo_fem_decoder_base.cc:189-281 | the carried packet behind it is stored under its own header with the pulses of the cut one in front, count and checksum being in order; or, when the overflow check meets the stale count, not at all |
| `PmtExamples.DirtyPacket` | NevisDecoder/Algorithm/algo_fem_decoder_base.cc:39-187 | a packet with event number 0xffffff is lost |
| `PmtExamples.ThrowingPacket` | NevisDecoder/Algorithm/algo_fem_decoder_base.cc:364-420 | a packet with trigger frame 8 and event frame 0 is lost |
| `PmtExamples.ThrowingPulse` | NevisDecoder/Algorithm/algo_pmt_xmit.cc:238-432 | a packet of event frame 0 with a pulse of frame 4 is lost |
| `PmtExamples.CutPacketStored` | NevisDecoder/Algorithm/algo_fem_decoder_base.cc:189-281 | the pulse of a cut packet of event 1 is stored under the header of event 2 |
| `PmtExamples.CutPulseStale` | NevisDecoder/Algorithm/algo_pmt_xmit.cc:238-446 | cut inside a pulse without samples, a packet makes the overflow check refuse a next pulse of four samples; without the check that packet is stored |
| `PmtRoundTrip.PmtSound` | NevisDecoder/Algorithm/algo_fem_decoder_base.cc:39-187 | the PMT decoder is such a decoder for carried packets |
| `PmtRoundTrip.StreamRoundTrip` | NevisDecoder/Algorithm/algo_pmt_xmit.cc:52-446 | a fresh decoder, with or without the overflow check, accepts every word of any stream of carried packets and logs exactly one event per packet |
| `PmtRoundTrip.ZeroExactly` | NevisDecoder/Algorithm/algo_fem_decoder_base.cc:149-165 | while no event is being searched for, a zero word is passed over behind a FEM's last word or an end word, changing nothing, and refused anywhere else with nothing stored |
| `PmtRoundTrip.PaddedRoundTrip` | NevisDecoder/Algorithm/algo_fem_decoder_base.cc:149-165 | a stream of carried packets with any number of zero words behind packets and behind end words is accepted and logs what the stream without them does |
| `PmtRoundTrip.Replay` | NevisDecoder/Algorithm/algo_pmt_xmit.cc:52-446 | a new decoder object fed such a stream ends with exactly the expected log |
| `WordClasses.PmtWords` | NevisDecoder/Algorithm/algo_pmt_xmit.hh:49-77 | the values of a 32-bit word that the PMT decoder takes for what |
| `PmtWords.FirstExactly` | NevisDecoder/Algorithm/algo_pmt_xmit.cc:263-271 | a packet's first word is accepted exactly behind a header |
| `PmtWords.OpeningExactly` | NevisDecoder/Algorithm/algo_pmt_xmit.cc:273-292 | a pulse's header begins a blank pulse with its number and discriminator exactly behind a first word, a pulse's last word, or padding that is due |
| `PmtWords.DataExactly` | NevisDecoder/Algorithm/algo_pmt_xmit.cc:294-427 | data and last words of pulses: where they are refused, which padding is refused, and, with the invalid event frame, frames half a period away and missing bit markers, what the outcome is everywhere else; a refused word is counted nowhere |
| `PmtWords.OtherRefused` | NevisDecoder/Algorithm/algo_pmt_xmit.cc:252-262 | every other 16-bit word is refused and counted nowhere |
| `PmtWords.RefusedEnd` | NevisDecoder/Algorithm/algo_pmt_xmit.cc:345-419 | a pulse's last word refused right behind a pulse's header stores the pulse all the same exactly if three header words had been counted before |
| `PmtWords.UndefinedExactly` | NevisDecoder/Algorithm/algo_pmt_xmit.cc:276-333 | exactly which words make the program read the last pulse of an empty event or use an event it never made |
| `PmtWords.PacketEndExactly` | NevisDecoder/Algorithm/algo_pmt_xmit.cc:139-235 | a packet's last word stores the event if it comes behind a pulse, a first word or padding that is due, count and 24-bit sum being those of the header, and is refused in all other cases |
| `PmtWords.PairExactly` | NevisDecoder/Algorithm/algo_fem_decoder_base.cc:107-143 | a 32-bit word is its two halves, the lower first; a half that is refused ends it, and only an upper half ends a packet |
| `PmtWords.MarkerExactly` | NevisDecoder/Algorithm/algo_pmt_xmit.cc:113-136 | the event marker is accepted when no event was made yet, and then makes an empty one, and behind an end word only |
| `PmtWords.EndWordExactly` | NevisDecoder/Algorithm/algo_pmt_xmit.cc:173-196 | the end word is accepted exactly behind the end of a packet |
| `PmtWords.HeaderWordExactly` | NevisDecoder/Algorithm/algo_fem_decoder_base.cc:189-281 | of the first six header words one is refused exactly if its upper half is none |
| `PmtWords.HeaderlessRun` | NevisDecoder/Algorithm/algo_pmt_xmit.cc:327-432 | a pulse without a header right behind another one is stored with that one's number and discriminator, without a frame, and with the time its second and third word add to the invalid time; its first word is passed over |
| `PmtWords.NamelessRun` | NevisDecoder/Algorithm/algo_pmt_xmit.cc:294-432 | behind padding such a pulse is stored under no channel number, with a time from three words |
| `PmtWords.RefusedExactly` | NevisDecoder/Algorithm/algo_fem_decoder_base.cc:39-187 | a refused word starts the search exactly in debug mode, where it leaves no header, no pulses and no counted words of a pulse |
| `PmtWords.Recovers` | NevisDecoder/Algorithm/algo_fem_decoder_base.cc:39-187 | in debug mode any words behind a refused one are passed over up to a header word; the carried packet that it begins, those of its event and all later events are stored |
| `PmtGate.StepFair` | NevisDecoder/Algorithm/algo_fem_decoder_base.cc:39-187 | one word of any kind keeps the ledger unless the program stops: every logged event accounted for, gathered header words among those received, and, while a header is at hand, both counters and the samples of the pulses since those of the same received words |
| `PmtGate.NothingUnbacked` | NevisDecoder/Algorithm/algo_pmt_xmit.cc:80-446 | for every sequence of words, corrupted ones included, each logged event has the header that six received words decode to, exactly its count and checksum in words received after them, and pulses whose samples are fields of received words, in order and without reuse: first those left in the buffer before the header, then, with the header's module numbers, those of the very words counted and summed; the header can be missing only behind 2^31 words |
| `PmtGate.AllHeaded` | NevisDecoder/Algorithm/algo_pmt_xmit.cc:80-137 | in a stream of fewer than 2^31 words no event is stored without a decoded header |
| `PmtGate.RunEndures` | NevisDecoder/Algorithm/algo_fem_decoder_base.cc:39-187 | the run that stops at the first refused word is covered by that theorem: it is the longer run over a prefix |
| `Fft.Combine` | UserDev/DavidAna/NoiseAna.cc:31-37 | the butterfly loop leaves at every position the sum or difference of the two halves' values; an odd last element stays |
| `Fft.FftInPlace` | UserDev/DavidAna/NoiseAna.cc:18-38 | the in-place recursion computes the recursive transform |
| `Fft.IfftInPlace` | UserDev/DavidAna/NoiseAna.cc:41-54 | conjugate, transform, conjugate, scale, in place, is the specified inverse |
| `Fft.TransformIsDft` | UserDev/DavidAna/NoiseAna.cc:18-38 | for every power-of-two length position k holds the sum of x[j] w(jk, N) |
| `Fft.TransformIsDftExactly` | UserDev/DavidAna/NoiseAna.cc:18-38 | the program computes the discrete Fourier transform of every input of a length if and only if the length is a power of two |
| `Fft.RowSum` | UserDev/DavidAna/NoiseAna.cc:41-54 | orthogonality: a row of twiddle powers sums to N or to zero |
| `Fft.InverseUndoesTransform` | UserDev/DavidAna/NoiseAna.cc:41-54 | ifft(fft(x)) = x for every power-of-two length |
| `Fft.ThereAndBack` | UserDev/DavidAna/NoiseAna.cc:18-54 | the two in-place programs one after the other restore the array |
| `Compress.SlideSpread` | UserDev/DavidAna/FastCompress.cc:244-257 | the three-term update of the running sum of squares equals the sum recomputed over the moved window |
| `Compress.Plain` | UserDev/DavidAna/WFCompress.cc:114-226 | the plain loop emits exactly the specified pieces, or ends in the checked-access exception, for every waveform of at most 65535 samples and all parameters |
| `Compress.Fast` | UserDev/DavidAna/FastCompress.cc:201-268 | the incremental loop, resets to zero and ambiguous zero included, emits exactly the same |
| `CompressWindows.Both` | UserDev/DavidAna/FastCompress.cc:201-268 | the two programs agree on every waveform of at most 65535 samples and all parameters, and emit pieces unless the waveform has fewer than two samples or the window none |
| `CompressWindows.TriggersSpaced` | UserDev/DavidAna/FastCompress.cc:259-264 | triggers are above the cut, in order, each beyond what the previous one suppresses |
| `CompressWindows.TriggersExactly` | UserDev/DavidAna/FastCompress.cc:259-264 | an index is a trigger if and only if it is above the cut, beyond the start, and not suppressed by an earlier trigger |
| `CompressWindows.PiecesOverlap` | UserDev/DavidAna/FastCompress.cc:335-372 | consecutive pieces start in order and share at most max(0, ante - 1) samples |
| `CompressWindows.Covered` | UserDev/DavidAna/FastCompress.cc:259-264 | every index above the cut lies between some trigger t and t + post |
| `CompressWindows.KeptExactly` | UserDev/DavidAna/FastCompress.cc:259-372 | a sample above the cut is in some emitted piece if and only if it is not exactly post behind a trigger or some sample within ante after it is above the cut |
| `CompressWindows.SampleLost` | UserDev/DavidAna/FastCompress.cc:259-372 | of 0, 0, 9, 0 with a window of two and one sample recorded per trigger, the last index is above the cut but in no piece |
| `ClusterBooks.BuildKeeps` | UserDev/ClusterRecoAlg/ClusterMergeAlg.cc:625-691 | every compatible pair keeps: index and sets agree, no set is empty or repeats, every member touches an earlier one, complaints are exactly the linked pairs left apart |
| `ClusterMergeAlg.Merger.AppendClusterInfo` | UserDev/ClusterRecoAlg/ClusterMergeAlg.cc:78-134 | clusters whose charge is below the cut or whose hits do not exceed the minimum change neither views nor index; others join their view, the index grows to their number with -1, and a clean event stays clean |
| `ClusterMergeAlg.Merger.AppendToClusterSets` | UserDev/ClusterRecoAlg/ClusterMergeAlg.cc:586-623 | all four branches: already placed, new set, existing set, set that does not exist; returns where the cluster now is |
| `ClusterMergeAlg.Merger.BuildClusterSets` | UserDev/ClusterRecoAlg/ClusterMergeAlg.cc:625-691 | the whole new index, sets and complaints for one pair |
| `ClusterMergeAlg.Merger.MergeView` | UserDev/ClusterRecoAlg/ClusterMergeAlg.cc:357-391 | the two nested loops over one view compute the specified run |
| `ClusterMergeAlg.Merger.FinalizeClusterSets` | UserDev/ClusterRecoAlg/ClusterMergeAlg.cc:694-721 | clusters in no set get one each, view by view |
| `ClusterMergeAlg.Merger.IsInClusterSets` | UserDev/ClusterRecoAlg/ClusterMergeAlg.cc:724-740 | while index and sets agree the result is k exactly if set k holds the cluster, and negative if none does |
| `ClusterMergeAlg.Merger.ProcessMergeAlg` | UserDev/ClusterRecoAlg/ClusterMergeAlg.cc:357-403 | the object computes the specified run from whatever state it is in |
| `ClusterMergeAlg.MergeEvent` | UserDev/ClusterRecoAlg/ClusterMergeAlg.cc:78-403 | for any found clusters with distinct numbers: the sets partition those taken into the three views, the index agrees, every set is connected by compatible pairs |
| `ClusterMerge.LinksExactly` | UserDev/ClusterRecoAlg/ClusterMergeAlg.cc:357-391 | the pairs the loops link are exactly the compatible pairs i before j within a view |
| `ClusterReruns.PartitionExactly` | UserDev/ClusterRecoAlg/ClusterMergeAlg.cc:357-403 | a run partitions its input, with index and sets in agreement, if and only if no number of the index is marked as placed before it, whatever was complained about earlier; then every set is connected by compatible pairs |
| `ClusterReruns.SetsPartitionExactly` | UserDev/ClusterRecoAlg/ClusterMergeAlg.cc:357-403 | the sets alone partition the input if and only if no cluster of the input is marked as placed before the run, whatever marks there are on other numbers |
| `ClusterReruns.NoSetsExactly` | UserDev/ClusterRecoAlg/ClusterMergeAlg.cc:321-403 | a run returns no sets if and only if every cluster of its input is marked as placed before it |
| `ClusterReruns.SecondRunIsEmpty` | UserDev/ClusterRecoAlg/ClusterMergeAlg.cc:321-403 | such a start: after any run from a clean event, a second run on the same input returns no sets |
| `ClusterOpeners.SetsOpened` | UserDev/ClusterRecoAlg/ClusterMergeAlg.cc:625-691 | the sets of two or more are as many as the openers of the three views and begin with them in order; an opener is a cluster with a later partner and no earlier one whose first later partner has no partner before it |
| `ClusterChains.TogetherExactly` | UserDev/ClusterRecoAlg/ClusterMergeAlg.cc:357-403 | all compatible pairs end together, and equally there is no complaint, if and only if no two openers of a view are joined by a chain of compatible pairs |
| `ClusterMerge.OneView` | UserDev/ClusterRecoAlg/ClusterMergeAlg.cc:357-403 | each set lies in one view: a view holds all of it or none |
| `ClusterMerge.AloneExactly` | UserDev/ClusterRecoAlg/ClusterMergeAlg.cc:694-721 | a cluster ends in a set of its own if and only if it has no compatible partner |
| `ClusterMerge.LeftApart` | UserDev/ClusterRecoAlg/ClusterMergeAlg.cc:625-691 | 0-2, 1-3 and 2-3 compatible: the sets are {0,2} and {1,3}, with a complaint |
| `ClusterCompare.ShortestExactly` | UserDev/ClusterRecoAlg/ClusterMergeAlg.cc:520-565 | the result is the least squared distance to the segment, attained, if and only if the segment has the minimal length or the point does not lie ahead of its start |
| `ClusterCompare.ShortSegmentMissed` | UserDev/ClusterRecoAlg/ClusterMergeAlg.cc:520-565 | the end point of a segment shorter than the limit lies on it but is told to be at distance one |
| `ClusterCompare.CompareSymmetric` | UserDev/ClusterRecoAlg/ClusterMergeAlg.cc:405-517 | compatibility does not depend on the order of the two clusters |
| `ClusterCompare.CloseExactly` | UserDev/ClusterRecoAlg/ClusterMergeAlg.cc:463-517 | two clusters are close if and only if an end point of one is nearer than the cut to some point of the other, where a cluster shorter than the limit is its start point |
| `ClusterCompare.AngleExactly` | UserDev/ClusterRecoAlg/ClusterMergeAlg.cc:425-461 | angles at most 270 degrees apart are compatible if and only if some whole number of half turns is nearer than the limit to their difference; farther apart, exactly if the difference is less than 180 degrees plus the limit |
| `ClusterCompare.AngleReversed` | UserDev/ClusterRecoAlg/ClusterMergeAlg.cc:425-461 | half turns more or less make no difference while the angles stay at most 270 degrees apart |
| `ClusterCompare.ParallelPass` | UserDev/ClusterRecoAlg/ClusterMergeAlg.cc:425-461 | angles 0 or 180 degrees apart pass with any positive limit |
| `ClusterCompare.PerpendicularFail` | UserDev/ClusterRecoAlg/ClusterMergeAlg.cc:425-461 | perpendicular angles fail with any limit up to 90 degrees |
| `ClusterCompare.FullTurnFails` | UserDev/ClusterRecoAlg/ClusterMergeAlg.cc:425-461 | angles 360 degrees apart, such as 180 and -180, are one direction but pass only with a limit above 180 degrees |
| `ClusterCompare.CompareExactly` | UserDev/ClusterRecoAlg/ClusterMergeAlg.cc:405-517 | clusters at most 270 degrees apart are compatible if and only if they span nearly the same line and an end point of one is nearer than the cut to some point of the other |
| `ClusterCompare.CompareReversed` | UserDev/ClusterRecoAlg/ClusterMergeAlg.cc:405-517 | exchanging start and end of a cluster that is long enough, and turning its angle by 180 degrees, changes nothing within that range |
| `ClusterCompare.PerpendicularNotMerged` | UserDev/ClusterRecoAlg/ClusterMergeAlg.cc:405-517 | two clusters from one point at right angles are not merged with a limit of 15 degrees |
| `SegmentDistance.EndPointCloser` | UserDev/ClusterRecoAlg/ClusterMergeAlg.cc:463-517 | for any points on two segments that do not meet there are two no farther apart, one of them an end point |
| `SegmentDistance.CloseMeansClose` | UserDev/ClusterRecoAlg/ClusterMergeAlg.cc:463-517 | clusters that are not two crossing segments are close if and only if some two of their points are nearer than the cut |
| `SegmentDistance.CrossingNotClose` | UserDev/ClusterRecoAlg/ClusterMergeAlg.cc:463-517 | clusters that cross far from their ends fail the distance test |
| `Hough.DiagonalExactly` | UserDev/ClusterRecoAlg/HoughBaseAlg.cc:663-692 | the row length is the whole part of twice the scaled diagonal, with the sign of the scale |
| `Hough.RowLengthIs` | UserDev/ClusterRecoAlg/HoughBaseAlg.cc:663-692 | the same in plain arithmetic on field and scale |
| `Hough.HoughTransform.Init` | UserDev/ClusterRecoAlg/HoughBaseAlg.cc:663-692 | an empty table, all counters zero, the row length from the field and the scale |
| `Hough.HoughTransform.AddPointReturnMax` | UserDev/ClusterRecoAlg/HoughBaseAlg.cc:642-649 | outside the field nothing changes and zeros come back; inside, exactly the cells on the curve gain one vote and the peak is returned |
| `Hough.HoughTransform.SubtractPoint` | UserDev/ClusterRecoAlg/HoughBaseAlg.cc:654-660 | the same with one vote less; false outside the field |
| `Hough.HoughTransform.DoAddPointReturnMax` | UserDev/ClusterRecoAlg/HoughBaseAlg.cc:720-795 | one vote for every cell on the curve and no other; the returned peak is the largest count before voting at the first cell that has it, minus one if none is positive |
| `Hough.HoughTransform.DoSubtractPoint` | UserDev/ClusterRecoAlg/HoughBaseAlg.cc:800-830 | one vote less for every cell on the curve and no other |
| `Hough.TallyGrows` | UserDev/ClusterRecoAlg/HoughBaseAlg.cc:720-830 | after any call every cell still holds the adding minus the subtracting points through it |
| `HoughRuns.OrderFree` | UserDev/ClusterRecoAlg/HoughBaseAlg.cc:720-830 | every cell and the point counter depend only on which calls were made |
| `HoughRuns.Undo` | UserDev/ClusterRecoAlg/HoughBaseAlg.cc:800-830 | subtracting a point cancels adding it in every cell and in the counter, whatever happened in between |
| `HoughRuns.VotesBounded` | UserDev/ClusterRecoAlg/HoughBaseAlg.cc:720-830 | in a balanced run no cell is negative or holds more votes than points are in |
| `HoughRuns.AddsOnly` | UserDev/ClusterRecoAlg/HoughBaseAlg.cc:720-795 | a cell holds as many votes as points if and only if every point's curve goes through it |
| `HoughRuns.UnbrokenVotes` | UserDev/ClusterRecoAlg/HoughBaseAlg.cc:753-787 | one point votes in every row for one unbroken stretch of max(1, |change of distance|) cells, starting where the previous row left off |
| `HoughRuns.FirstRow` | UserDev/ClusterRecoAlg/HoughBaseAlg.cc:720-753 | in row 1 the stretch starts at the middle of the row, the fraction dropped, plus the scaled x, and runs towards the distance at row 1 |
| `HoughRuns.OneVote` | UserDev/ClusterRecoAlg/HoughBaseAlg.cc:663-795 | a new accumulator and one point inside the field: row 1 holds one vote exactly in those cells, the row length being twice the scaled diagonal without its fraction, in plain arithmetic |
| `HoughRuns.OnePeak` | UserDev/ClusterRecoAlg/HoughBaseAlg.cc:757-785 | the peak is determined: two results that both qualify are equal |
| `HoughRuns.Replay` | UserDev/ClusterRecoAlg/HoughBaseAlg.cc:642-830 | any run of calls on the object leaves the tally in every cell |
| `Segments.OverlapExactly` | UserDev/ClusterRecoUtil/Polygon2D.cc:15-28 | two segments pass the test if and only if they share a point and, on each line, an end point of the other segment lies strictly on the left |
| `Segments.OverlapIffShared` | UserDev/ClusterRecoUtil/Polygon2D.cc:21-28 | in general position the test says exactly whether the segments share a point |
| `Segments.OverlapSymmetric` | UserDev/ClusterRecoUtil/Polygon2D.cc:21-28 | exchanging the segments changes nothing |
| `Segments.OverlapReversed` | UserDev/ClusterRecoUtil/Polygon2D.cc:21-28 | reversing a segment changes nothing in general position |
| `Segments.TouchingDependsOnDirection` | UserDev/ClusterRecoUtil/Polygon2D.cc:21-28 | a touching pair passes in one direction of a segment and fails in the other |
| `Segments.IntersectionMirrored` | UserDev/ClusterRecoUtil/Polygon2D.cc:31-49 | the computed point lies on the first line with the abscissa of the crossing point negated |
| `Segments.IntersectionExactly` | UserDev/ClusterRecoUtil/Polygon2D.cc:31-49 | the computed point lies on both segments if and only if they share a point and their lines meet the vertical axis at the same height |
| `Segments.IntersectionOfOverlap` | UserDev/ClusterRecoUtil/Polygon2D.cc:15-49 | overlapping segments, neither vertical, have different slopes and one common point, and the computed point has its abscissa negated |
| `Segments.DiagonalsMissed` | UserDev/ClusterRecoUtil/Polygon2D.cc:31-49 | the diagonals of a square cross at (1, 1); the computed point is (-1, -1) |

## Left out

- `algo_sn_tpc_huffman`, the trigger decoder, the pedestal and pulse-finder classes and the event builder.
- File reading and writing, `bin_io_handler`, `decoder_manager`, back-trace recording and all messages, except the merging complaints, which are a log.
- `ROOT` histograms, trees and fits; `_compressfctr` and the histogram fills of the compression classes; `CalculateTTreeVars`.
- `storage_manager`: appending to a log that always succeeds stands for it; a failing store is not modelled.
- `readout_frame_number` and the readout sample of a TPC channel are never set by the decoder and do not appear.
- `TpcRoundTrip.StreamRoundTrip`: the streams, like those of `PmtRoundTrip.StreamRoundTrip`, are well formed; what is stored of malformed ones is the subject of `NothingUnbacked` of the two gates and of `Recovers`.
- `TpcGate.NothingUnbacked`: with a header that announces no words the decoder counts none, so there the channels are traced to words received after the header, not to counted ones.
- `PmtGate.NothingUnbacked`: traces header, count, checksum, module numbers and samples; a pulse's number, discriminator and time are the subject of `PmtPackets.ShotRun` only.
- `TpcRoundTrip.PacketRoundTrip`: starts where no header is at hand or under way; behind a TPC packet that was cut off its header words are data of that packet, which `TpcGate.NothingUnbacked` covers.
- `TpcXmitLanguage.AcceptedExactly`: starts after the FEM header; `process_word` of the plain decoder around it is the base class's, modelled with the PMT decoder.
- `PmtRoundTrip.PacketRoundTrip`: starts where no header is under way; one cut off after one to five words is completed by the next packet's, which `PmtGate.NothingUnbacked` covers. Pulses carry channel headers; those without one are the subject of `PmtWords.HeaderlessRun`.
- `Compress.Plain`: window parameters and sample indices are unbounded integers; the program's 16-bit index never ends on a waveform of more than 65535 samples.
- `Compress.Fast`: exact arithmetic, so a running sum that rounding makes slightly negative is not modelled.
- `Fft.FftInPlace`: rounding is not modelled, and the twiddle factors are any family with the laws of the unit circle.
- `ClusterMergeAlg.Merger.ProcessMergeAlg`: `CompareClusters` is any function of two clusters; the real one is in `ClusterCompare`.
- `ClusterMergeAlg.Merger.AppendClusterInfo`: the cluster comes in with its start point refined and its charge summed; that refinement, over histograms of hits, is left out. A cluster number is not negative.
- `ClusterMergeAlg.Merger.AppendToClusterSets`: a number beyond the index, which would be written out of bounds, is excluded.
- `ClusterCompare.ShortestExactly`: a minimal length of zero, with which a point-like segment would be divided by zero, is excluded.
- `Hough.HoughTransform.DoAddPointReturnMax`: the rows are 1 to n - 1, as in exact arithmetic; adding and subtracting compute the row from the floating-point angle in two ways that rounding could tell apart.
- `Hough.HoughTransform.Init`: the square root is exact and the integers do not overflow.
- `HoughTransform::GetMax`, `SetCell`, `IncrementCell`, and the line search of `HoughBaseAlg::Transform` with its random selection.
- `Segments.IntersectionExactly`: vertical and parallel segments, where the program divides by zero, are excluded; results are not rounded to `float`.
- `Polygon2D` beyond these functions, `FindSlope`, and the floating-point heuristics of the other reconstruction algorithms.
