# HDLC protocol stack: model and proofs

This project models the C++ HDLC stack of a DLMS/COSEM meter library (`src/hdlc`) in Dafny and proves what its four
layers promise, alone and together. `dafny verify dfyconfig.toml` checks all of it.

## The layers

`Types` holds the status codes and limits that all of them share.

**Checksum** (`Bits`, `Crc`, `CrcDetection`, `Polynomials`, `CrcPeriod`). The frame check sequence is the 16-bit FCS
of RFC 1662, Appendix C.2. The specification is a shift register fed one bit at a time; the byte-wise loops of the
source are proved against it. The register is linear and loses nothing, which gives the residue law as an
if-and-only-if, burst detection, parity, and, through the order 32767 of the register, the detection of any two
errors.

**Frame codec** (`Addressing`, `ControlField`, `Codec`, `CodecBuffers`, `FrameErrors`, `FrameDamage`,
`UndetectedDamage`, `KnownFrames`). Printing and parsing are functions on byte strings; the methods that write through
a moving offset or read through one are proved equal to them. Decoding inverts encoding, encoding inverts decoding
with one exact exception, damaged frames are rejected, the damage behind the header checksum that is accepted is given
exactly, every refusal has its exact reason, and known frames come out byte by byte.

**Stream and segments** (`Stream`, `StreamErrors`, `Segmentation`, `Pipeline`). The decoder object consumes a buffer
that arrives in chunks; the reassembler object accumulates segments. Chunks never matter, framing inverts printing, no
input byte is lost or counted twice, and payloads survive the whole path under any limits under which their largest
segments encode.

**Session** (`Negotiation`, `SessionModel`, `SessionLaws`, `SessionObject`, `SessionNegotiation`, `SessionLimits`,
`SessionClosing`). The session is an object with one field per member variable; each method is proved to do to the
state what a function on session values does, to keep the object valid, and to move nothing unless it returns Ok. The
theorems are about those functions: what moves each variable over all calls and what every call sends and reports,
what every call keeps, what the exchange of SNRM and UA settles, how much an I-frame may then carry, how connections
end, and where they cannot.

**Two stations** (`Link`, `LinkLines`, `LinkCalls`, `LinkRuns`, `LinkPaths`, `LinkLosses`, `LinkProgress`,
`LinkPartings`). A client and a server exchange bytes over two lines. True, unbounded counts are kept beside the
three-bit counters, and books beside every connection. The theorems range over every run, from before the first SNRM
through disconnects by either side to any number of later connections: on lines that lose and damage frames nothing
wrong is ever accepted; on faithful lines everything is accepted and the two sides can always be brought to rest; a
loss is final in its connection, and nothing else is; and without losses only what reaches a side that has asked to
disconnect is refused.

## Hypotheses that the code needs

- Windows are configured within 1 to 7 (zero stands for 1). The code stores up to 255 and checks nothing;
  `Link.WindowExact` shows that 7 is the exact bound and `Link.WindowOverrun` what happens beyond it.
- Damage on a line changes two bits, an odd number of bits, or bits within 16 consecutive ones, and keeps the length.
- A pushed segment is no larger than the reassembly limit. Otherwise the unsigned comparison wraps around
  (`Segmentation.LimitStep` says exactly when the limit holds, `Segmentation.LimitExceeded` shows it broken).
- Lengths have 16 bits in a parameter block. `SessionNegotiation.AgreedMinimum` says exactly when the agreed values
  are the most that both sides can do, and `SessionNegotiation.AgreementExact` exactly when the two sides agree at
  all.

## Where code and documentation differ

The model follows the code. Each difference is stated by the theorems named with it.

- `docs/04_hdlc_session_requirements.md:142-147` gives 2030 and 7 as maximum values, and lines 201-202 require answers
  within them. The code bounds neither (`SessionNegotiation.ConformingAnswer`,
  `SessionNegotiation.NonconformingAnswer`).
- Lines 152-161 want both sides to hold the negotiated minimum. If that has more than 16 bits, the server keeps the
  whole of it and tells the client the low 16 bits (`SessionNegotiation.AgreementExact`,
  `SessionNegotiation.Disagreement`).
- Lines 122-123 give one or two bytes for a length and four for a window. The code reads one to four bytes for each
  (`Negotiation.ParserExact`, `Negotiation.DocumentedBlock`).
- Line 176 says that both sides use the defaults when the SNRM has no Information field. The code leaves earlier
  limits in place on both sides (`SessionLimits.NoBlockNoChange`, `SessionLimits.UnreadNoChange`,
  `SessionLimits.EarlierLimitsStay`). On a first connection it caps nothing although it reports 128
  (`SessionLimits.UncappedBefore`, `SessionLimits.Uncapped`), and a negotiated length of zero caps nothing either
  (`SessionLimits.CappedForever`, `SessionLimits.ZeroUncapped`).
- Line 169 updates the limits after the UA is sent. The code updates them before it builds the UA, so that the UA
  itself must fit under the new limit (`SessionNegotiation.AnswerBuilt`), and keeps them if it does not.
- Section 10 asks callers to build a request or an I-frame again on a timeout and asks the session for a `Reset`.
  There is no such call, a request cannot be built again, and a new I-frame gets a new number
  (`SessionClosing.WaitingForever`, `LinkLosses.StalledForever`, `LinkLosses.MissingExactly`).
- A pending disconnect can outlive its connection (`SessionClosing.DisconnectPendingStep`,
  `SessionClosing.StaleDisconnect`), and a pending DM can outlive the refusal that it is for
  (`SessionClosing.DmPendingStep`, `SessionClosing.StaleDm`).
- `docs/03_hdlc_segmentation.md:99` asks that no new sequence starts before the previous one is complete. The code
  reports it only if addresses or kind differ, and otherwise merges the two (`Segmentation.NewSequenceReported`,
  `Segmentation.NewSequenceMerged`).
- `docs/03_hdlc_segmentation.md:38-49` derives the size of a segment from the frame limit. The segmenter takes 2030
  bytes whenever no Information limit is given, and the encoder may refuse what it cuts (`Pipeline.SegmenterExact`,
  `Pipeline.OversizeSegment`).
- `NeedMoreData` from the stream decoder does not say whether bytes were kept (`Stream.ResetReportedAsWaiting`,
  `Stream.ResetReportedAsWaitingWitness`).
- The decoder accepts a header checksum in front of an empty Information field, which the encoder never prints
  (`Codec.EncodeAfterDecode`, `Codec.RedundantAccepted`, `Codec.DecodePreimage`).

## Model

| member | source | states |
|---|---|---|
| Crc.UpdateCrc | src/hdlc/hdlc_crc.cpp:11-22 | the loop over a byte leaves the register that feeding its eight bits one by one leaves |
| Crc.CalculateHdlcCrc | src/hdlc/hdlc_crc.cpp:26-40 | the loop over the message computes the bit-serial checksum |
| Crc.FeedDigits | src/hdlc/hdlc_crc.cpp:11-22 | mixing digits in together and turning k times feeds the lowest k of them one by one and shifts the others |
| Crc.StepNInjective | src/hdlc/hdlc_crc.cpp:14-20 | the register loses nothing: different contents stay different after any number of turns |
| Crc.ResidueLaw | src/hdlc/hdlc_codec.cpp:317-321 | a message and two bytes leave the register that 16 turns make of the initial one if and only if those bytes are its checksum, low byte first |
| CrcDetection.SameRegister | src/hdlc/hdlc_crc.cpp:26-40 | two messages of one length agree in the register if and only if their difference alone leaves zero |
| CrcDetection.BurstSyndrome | src/hdlc/hdlc_crc.cpp:11-40 | a nonzero error pattern within 16 consecutive bits is never lost, in a message of any length |
| CrcDetection.ChecksumParity | src/hdlc/hdlc_crc.cpp:26-40 | the checksum has the bit parity of the message |
| CrcDetection.OddSyndrome | src/hdlc/hdlc_crc.cpp:11-40 | an odd number of wrong bits is never lost |
| Polynomials.HornerPower | src/hdlc/hdlc_crc.cpp:14-20 | n turns of the register multiply by the n-th power of x modulo the polynomial |
| Polynomials.ResidueConstant | src/hdlc/hdlc_codec.cpp:317-321 | a message and two bytes leave the register 0xf0b8 if and only if those bytes are its checksum, low byte first |
| CrcPeriod.Order | src/hdlc/hdlc_crc.cpp:8-22 | a single bit comes back after n turns if and only if 32767 divides n |
| CrcPeriod.TwoErrorSyndrome | src/hdlc/hdlc_crc.cpp:11-40 | two errors cancel if and only if their distance is a multiple of 32767 bits |
| CrcPeriod.PairSyndrome | src/hdlc/hdlc_crc.cpp:11-40 | exactly two wrong bits in up to 32767 are never lost |
| Addressing.FromBytes | src/hdlc/hdlc_address.cpp:26-62 | the parsing loop finds the address field that ends at the first byte with its lowest bit set, or the right error |
| Addressing.Encode | src/hdlc/hdlc_address.cpp:82-110 | the writing loop prints the address at its place and leaves the rest of the buffer alone, or reports a small buffer |
| Addressing.AddressRoundTrip | src/hdlc/hdlc_address.cpp:26-110 | an encoded address followed by anything is read back and consumes its own bytes only |
| Addressing.AddressCanonical | src/hdlc/hdlc_address.cpp:26-110 | what is accepted as an address is exactly the encoding of the address it yields |
| Addressing.AddressPrefixFree | src/hdlc/hdlc_address.cpp:82-110 | no address field is the beginning of another |
| Addressing.ServerAddressInjective | src/hdlc/hdlc_address.cpp:133-156 | a device pair is refused exactly when a part needs more than 14 bits, and distinct pairs get distinct addresses |
| Addressing.AddressSpelled | src/hdlc/hdlc_address.cpp:82-110 | an address field spells its value, highest bits first, and only its last byte is odd |
| Addressing.FromRawExact | src/hdlc/hdlc_address.cpp:64-80 | a number becomes an address if and only if the size is 1, 2 or 4 and it has at most 7, 14 or 28 bits, and otherwise which of the two fails first |
| Addressing.AddressErrors | src/hdlc/hdlc_address.cpp:26-62 | three bytes before the first odd one are unsupported, four even ones are invalid, and fewer than four even ones need more, each exactly |
| Addressing.ServerAddressSpelled | src/hdlc/hdlc_address.cpp:133-156 | a server address spells the logical device before the physical one, in the shortest field that holds both |
| ControlField.UnnumberedBytes | src/hdlc/hdlc_control.cpp:100-132 | each unnumbered command stands for exactly two bytes, with and without the Poll/Final bit |
| ControlField.DecodableBytes | src/hdlc/hdlc_control.cpp:26-49 | exactly these control bytes are accepted |
| ControlField.NumberedBytes | src/hdlc/hdlc_control.cpp:58-147 | a numbered control byte says kind, N(S) or supervisory command, P/F and N(R) as they were put together |
| Codec.EncodeFrame | src/hdlc/hdlc_codec.cpp:171-204 | the convenience encoder never reports a small buffer and stays within the frame limit (the bytes: Codec.FlagsOnWire, KnownFrames.KnownSnrm) |
| Codec.DecodeFrame | src/hdlc/hdlc_codec.cpp:353-395 | the convenience decoder never reports a small buffer |
| Codec.ReadEnvelope | src/hdlc/hdlc_codec.cpp:227-267 | an accepted envelope has the announced length, at least 6, within the frame limit |
| Codec.DecodeWire | src/hdlc/hdlc_codec.cpp:206-351 | a printed frame is decoded to itself, or refused as too large, under any limits, with the exact condition of each |
| Codec.DecodeAfterEncode | src/hdlc/hdlc_codec.cpp:77-395 | decoding inverts encoding under every limits value that lets the frame through |
| Codec.DefaultsAdmit | src/hdlc/hdlc_codec.cpp:68-75 | the default limits read whatever any limits let through |
| Codec.EncodeAfterDecode | src/hdlc/hdlc_codec.cpp:302-350 | re-encoding what was decoded succeeds and gives the same bytes if and only if no header checksum stood before an empty Information field; then the form two bytes shorter, which decodes to the same frame |
| Codec.RedundantAccepted | src/hdlc/hdlc_codec.cpp:302-350 | every frame without Information whose header and 6 bytes fit is decoded from the form with a header checksum in front of the empty field |
| Codec.DecodePreimage | src/hdlc/hdlc_codec.cpp:206-351 | exactly what decodes to a frame under any limits: its own encoding if it is encodable, that other form if the frame has no Information and the form fits, and nothing else |
| Codec.EncoderExact | src/hdlc/hdlc_codec.cpp:94-112 | a frame is encodable if and only if some input decodes to it, under any limits |
| Codec.EncodableExact | src/hdlc/hdlc_codec.cpp:18-40 | a frame is encodable if and only if its length can be announced, its bytes are within the frame limit and its Information within an explicit limit; the derived limit never refuses a frame that fits |
| Codec.EncodeInjective | src/hdlc/hdlc_codec.cpp:77-169 | no two frames have the same encoding |
| Codec.FlagsOnWire | src/hdlc/hdlc_codec.cpp:118-166 | every encoded frame starts and ends with 0x7e |
| Codec.FlagsRequired | src/hdlc/hdlc_codec.cpp:231-267 | no input without 0x7e at both ends is accepted |
| Codec.ZeroLimits | src/hdlc/hdlc_codec.cpp:18-40 | a frame or Information limit of zero stands for the default |
| CodecBuffers.EncodeFrameToBuffer | src/hdlc/hdlc_codec.cpp:77-169 | the buffer starts with exactly the printed frame and is otherwise unchanged, or nothing is written and the status says why |
| CodecBuffers.EncodeFrameToVector | src/hdlc/hdlc_codec.cpp:171-204 | sizing, encoding and cutting the vector gives what the encoding function gives |
| CodecBuffers.DecodeFrameFromBuffer | src/hdlc/hdlc_codec.cpp:206-351 | the checks in their order, through a moving offset, give what the decoding function gives; Information bytes are copied only on success and nothing else is written |
| CodecBuffers.DecodeFrameToVector | src/hdlc/hdlc_codec.cpp:353-395 | decoding into a buffer of the frame limit gives what the decoding function gives |
| FrameErrors.EncodeErrors | src/hdlc/hdlc_codec.cpp:94-116 | which of the four refusals the encoder reports, exactly and in which order |
| FrameErrors.EnvelopeErrors | src/hdlc/hdlc_codec.cpp:227-267 | which refusal a wrong flag, type, length or size is reported with, exactly and in which order |
| FrameErrors.AddressRefused | src/hdlc/hdlc_codec.cpp:269-290 | an address that cannot be read is reported as it is, the destination before the source |
| FrameErrors.ControlRefused | src/hdlc/hdlc_codec.cpp:292-300 | too few bytes behind the addresses and an unknown control byte are reported as such |
| FrameErrors.DecodeBehind | src/hdlc/hdlc_codec.cpp:302-350 | behind the control byte a stray byte, the header checksum, the frame checksum, the caller's buffer and the Information limit decide in this order, each with its own status |
| KnownFrames.KnownSnrm | test/hdlc/test_hdlc_frame_encoder.cpp:42-53 | the ten bytes of an SNRM |
| KnownFrames.KnownDisc | test/hdlc/test_hdlc_frame_encoder.cpp:55-66 | the ten bytes of a DISC |
| KnownFrames.KnownReady | test/hdlc/test_hdlc_frame_encoder.cpp:68-79 | the ten bytes of an RR |
| KnownFrames.KnownSession | src/hdlc/hdlc_session.cpp:310-520 | a client with the default capability sends these bytes to connect, to say that it is ready, and to disconnect |
| FrameDamage.AcceptedResidue | src/hdlc/hdlc_codec.cpp:317-321 | the bytes between the flags of every accepted frame leave the register 0xf0b8 |
| FrameDamage.AcceptedEven | src/hdlc/hdlc_codec.cpp:317-321 | every accepted frame has even bit parity between its flags |
| FrameDamage.DamageRejected | src/hdlc/hdlc_codec.cpp:206-351 | an accepted frame with two wrong bits, an odd number of them, or any within 16 consecutive bits is rejected, whatever the limits of either side |
| FrameDamage.ThreeBitsRejected | src/hdlc/hdlc_codec.cpp:206-351 | one to three wrong bits anywhere in an accepted frame are always detected |
| FrameDamage.TwoBytesDetectable | src/hdlc/hdlc_codec.cpp:261-321 | any difference within two adjacent bytes is of the kind that is rejected, also across data and checksum |
| FrameDamage.TwoBytesRejected | src/hdlc/hdlc_codec.cpp:206-351 | a byte string that differs from an accepted frame within two adjacent bytes only is rejected, under any limits |
| UndetectedDamage.GeneratorLost | src/hdlc/hdlc_crc.cpp:8-22 | four wrong bits within 17 consecutive ones cancel, so that the bounds of three bits and of 16 consecutive ones are exact |
| UndetectedDamage.AcceptedExactly | src/hdlc/hdlc_codec.cpp:206-351 | a byte string that agrees with an encoded frame through the header checksum, in length and in its last flag is accepted if and only if its error pattern leaves the register at zero, and then decodes to that frame with other Information |
| UndetectedDamage.FourBitsAccepted | src/hdlc/hdlc_codec.cpp:206-351 | in the encoding of every frame with Information some four wrong bits are accepted: the Hamming distance is exactly 4 |
| Stream.FindFlag | src/hdlc/hdlc_stream_decoder.cpp:55-57 | the search stops at the first flag, or at the end if there is none |
| Stream.StreamDecoder.Push | src/hdlc/hdlc_stream_decoder.cpp:36-125 | a push returns the frames, the bytes kept and the status of draining the old buffer and the new bytes; StreamErrors.StatusExact says when that status is Ok |
| Stream.StreamDecoder.FrontOf | src/hdlc/hdlc_stream_decoder.cpp:77-114 | the checks at the front of the buffer in their order |
| Stream.StreamDecoder.Reset | src/hdlc/hdlc_stream_decoder.cpp:127-130 | a reset empties the buffer |
| Stream.Chunking | src/hdlc/hdlc_stream_decoder.cpp:54-124 | pushing a and then b is pushing both together: same frames, same bytes kept, same end; if a fails, both fail in the same way |
| Stream.ChunkingAll | src/hdlc/hdlc_stream_decoder.cpp:54-124 | the same for any number of chunks |
| Stream.BufferInvariant | src/hdlc/hdlc_stream_decoder.cpp:54-124 | after every push the buffer is empty or starts with a flag, holds no complete frame, and is shorter than the smaller of the frame limit and 2049 once it has a header; each frame took at least 8 bytes |
| Stream.WaitingDrains | src/hdlc/hdlc_stream_decoder.cpp:77-103 | exactly such buffers are left alone by a push of nothing |
| Stream.LineDecodes | src/hdlc/hdlc_stream_decoder.cpp:55-123 | encoded frames one after the other are decoded to exactly that list with nothing left and reported with Ok, flags inside them do no harm, and under the ignoring policy neither does noise between them |
| Stream.ChunkedLineDecodes | src/hdlc/hdlc_stream_decoder.cpp:36-125 | the same however the bytes are cut into chunks |
| Stream.ResetReportedAsWaiting | src/hdlc/hdlc_stream_decoder.cpp:111-113 | a push discards its bytes with NeedMoreData if and only if the frames found are followed, behind noise that is ignored, by a complete frame whose addresses are truncated |
| Stream.InspectWaits | src/hdlc/hdlc_stream_decoder.cpp:77-114 | the front of the buffer is discarded with NeedMoreData if and only if it is a complete frame whose addresses are truncated |
| Stream.ResetReportedAsWaitingWitness | src/hdlc/hdlc_stream_decoder.cpp:111-113 | eight bytes that are discarded and two that are kept, both with NeedMoreData, under the default limits |
| StreamErrors.StatusExact | src/hdlc/hdlc_stream_decoder.cpp:63-103 | without a reset a push reports Ok if and only if it returns frames and NeedMoreData if and only if it returns none; with one it reports the reason, which is never Ok |
| StreamErrors.InspectCases | src/hdlc/hdlc_stream_decoder.cpp:77-123 | at the front of the buffer: what is waited for, which wrong header is reported how, and when the frame is decoded |
| StreamErrors.NoiseCases | src/hdlc/hdlc_stream_decoder.cpp:54-75 | bytes in front of the first flag are reported as InvalidFlag or skipped, by the policy |
| StreamErrors.PushEnds | src/hdlc/hdlc_stream_decoder.cpp:54-124 | a push keeps what it waits for or resets with what is wrong behind the last frame found |
| Segmentation.SegmentInformation | src/hdlc/hdlc_segmentation.cpp:62-107 | the splitting loop produces the segments of the specification |
| Segmentation.SegmentsShape | src/hdlc/hdlc_segmentation.cpp:62-107 | the segments carry the payload in order; all but the last are full and marked, the last is not |
| Segmentation.Reassembler.PushFrame | src/hdlc/hdlc_segmentation.cpp:116-174 | one push makes exactly the transition, status and completed frame of the specification |
| Segmentation.Reassembler.Reset | src/hdlc/hdlc_segmentation.cpp:176-180 | a reset leaves nothing pending |
| Segmentation.LimitStep | src/hdlc/hdlc_segmentation.cpp:122-151 | one push keeps the reassembly limit if and only if the frame alone is within it, nothing is pending, or the frame does not continue what is pending |
| Segmentation.LimitExceeded | src/hdlc/hdlc_segmentation.cpp:150-151 | with a limit of 1, a pending byte and a final segment of two complete a frame of three |
| Segmentation.TrackStep | src/hdlc/hdlc_segmentation.cpp:116-174 | each frame pushed joins the open segments, which stay open, become a sound message, or are lost: with SegmentationError exactly if the frame does not continue them, with SegmentationOverflow exactly if it does and the sum exceeds the limit |
| Segmentation.HistorySound | src/hdlc/hdlc_segmentation.cpp:116-180 | over every history each frame lands in order in exactly one message, one lost group or the open segments; messages are merges of proper sequences within the limit, and every lost group is an open sequence ended by the frame that was the reason for its status |
| Segmentation.ResetsSound | src/hdlc/hdlc_segmentation.cpp:116-180 | the same with resets by the caller anywhere, which drop exactly the open segments |
| Segmentation.NewSequenceReported | docs/03_hdlc_segmentation.md:99 | a frame that does not belong to what is pending is reported if and only if its addresses or its kind differ |
| Segmentation.NewSequenceMerged | src/hdlc/hdlc_segmentation.cpp:138-151 | the segments of a new payload with the same addresses and kind are appended to an unfinished one and delivered with it as one message |
| Segmentation.SegmentationRoundTrip | src/hdlc/hdlc_segmentation.cpp:62-174 | reassembling what was segmented gives the payload back if and only if it is within the reassembly limit |
| Segmentation.OneSegment | src/hdlc/hdlc_segmentation.cpp:11-17 | a payload stays one frame if and only if it is within the Information limit, or 2030 bytes without one |
| Segmentation.ReplyStatus | src/hdlc/hdlc_segmentation.cpp:116-174 | Ok comes exactly with a complete frame and SegmentationIncomplete exactly with a pending one; without a limit 65535 bytes start a sequence and 65536 do not |
| Pipeline.DefaultSegmentsFit | src/hdlc/hdlc_segmentation.cpp:11-17 | under the default limits every segment of every payload encodes, for any address sizes |
| Pipeline.SegmentsFit | src/hdlc/hdlc_segmentation.cpp:62-107 | under any limits the segments of a payload all encode if and only if the largest one does |
| Pipeline.SegmenterExact | docs/03_hdlc_segmentation.md:38-49 | the segments of every payload encode if and only if a full one leaves room for header and six bytes in the frame limit and in 2049 bytes |
| Pipeline.OversizeSegment | src/hdlc/hdlc_segmentation.cpp:11-17 | with a frame limit of 64 and no Information limit, 100 bytes stay one segment, which the encoder refuses |
| Pipeline.EndToEnd | src/hdlc/hdlc_stream_decoder.cpp:36-125 | under any limits, segmenting, encoding, cutting into chunks, decoding and reassembling gives any list of payloads back, in order, if they are within the reassembly limit and their largest segments encode |
| Pipeline.EndToEndDefault | src/hdlc/hdlc_codec.cpp:68-75 | under the default limits so it is for all payloads of up to 65535 bytes |
| Negotiation.ParseBeValue | src/hdlc/hdlc_session.cpp:74-81 | the loop reads a big-endian value |
| Negotiation.ParseSnrmInfoField | src/hdlc/hdlc_session.cpp:87-138 | the parsing loop agrees with the recursive reading of the field and never reads past it; Negotiation.BlockExact says what is a block |
| Negotiation.BlockExact | src/hdlc/hdlc_session.cpp:97-110 | nothing is consumed, and parsing succeeds, if and only if the field is shorter than 3 bytes or does not start with 0x81 0x80; otherwise the third byte counts the entries, and too few bytes are a format error |
| Negotiation.EncodeSnrmNegotiationBlock | src/hdlc/hdlc_session.cpp:142-178 | the block is appended to what the output holds |
| Negotiation.ParserExact | src/hdlc/hdlc_session.cpp:104-138 | a block is accepted if and only if it is a sequence of well-formed entries with tags 5 to 8; the last entry of each tag wins, and missing ones keep the default |
| Negotiation.UnknownReported | src/hdlc/hdlc_session.cpp:104-138 | UnsupportedFeature is reported if and only if well-formed known entries are followed by a well-formed unknown one |
| Negotiation.BlockRoundTrip | src/hdlc/hdlc_session.cpp:87-178 | parsing a printed block and any user bytes consumes 23 bytes and yields the values modulo 2^16 and 2^8, which are the same values if and only if they are in range |
| Negotiation.DefaultBlock | src/hdlc/hdlc_session.cpp:142-178 | the 23 bytes of the default parameters |
| Negotiation.DocumentedBlock | docs/04_hdlc_session_requirements.md:128-134 | the documented 21 bytes, with lengths of one byte, are read as the default parameters too |
| SessionModel.InformationFields | src/hdlc/hdlc_session.cpp:31-38 | an I-frame control byte says N(S), N(R) and P/F as it was made |
| SessionModel.StepKeeps | src/hdlc/hdlc_session.cpp:296-756 | every call keeps pending flags, roles, phases and counters consistent; a call that does not return Ok moves neither phase nor counters and builds nothing |
| SessionModel.RunKeeps | src/hdlc/hdlc_session.cpp:296-756 | the same over every sequence of calls; role, addresses, capability and frame limit never change, and the Information limit stays the negotiated length once it is |
| SessionLaws.StrangersRefused | src/hdlc/hdlc_session.cpp:522-526 | a frame of any kind from or for another station leaves the session as it is and is reported with InvalidAddress, and no other frame is |
| SessionLaws.StrangersDoNotMatter | src/hdlc/hdlc_session.cpp:522-538 | in every sequence of calls the frames of other stations make no difference |
| SessionLaws.CallMoves | src/hdlc/hdlc_session.cpp:296-756 | what moves the phase, each counter, each pending flag, the negotiation, the limits and the user information, over all calls, by bytes and sizes; a call reports Ok exactly if it sends or takes something |
| SessionLaws.CallSays | src/hdlc/hdlc_session.cpp:296-577 | every frame sent, by control byte, addresses and Information, and every refusal in its order |
| SessionLaws.HeardRefused | src/hdlc/hdlc_session.cpp:522-756 | the status of every frame that is not taken in |
| SessionLaws.ReadySays | src/hdlc/hdlc_session.cpp:41-50 | what says where this side stands is a receive-ready with N(R) equal to V(R) and the P/F bit given, also as bytes |
| SessionLaws.StartFields | src/hdlc/hdlc_session.cpp:219-253 | every variable of a new session; zero capabilities become 128 and 1 |
| SessionLaws.RunWindow | src/hdlc/hdlc_session.cpp:252-415 | the window in force is always the negotiated one |
| SessionObject.HdlcSession.constructor | src/hdlc/hdlc_session.cpp:219-253 | the object starts disconnected with zero counters and zero capabilities replaced by the defaults, and valid |
| SessionObject.HdlcSession.CanSendInformationFrame | src/hdlc/hdlc_session.cpp:275-280 | for all true counts that the counters stand for: fewer than a window of payloads are unacknowledged |
| SessionObject.HdlcSession.BuildConnectRequest | src/hdlc/hdlc_session.cpp:296-300 | the overload without user information sends a block only if the capability is not the default; the object stays valid, and unless Ok is returned neither phase nor counters move and nothing is built |
| SessionObject.HdlcSession.BuildConnectRequestWith | src/hdlc/hdlc_session.cpp:302-308 | the overload with user information always sends a block; the object stays valid, and unless Ok is returned neither phase nor counters move and nothing is built |
| SessionObject.HdlcSession.BuildConnectRequestInternal | src/hdlc/hdlc_session.cpp:310-358 | new state, status and bytes of an SNRM; the object stays valid, and unless Ok is returned neither phase nor counters move and nothing is built |
| SessionObject.HdlcSession.BuildConnectResponse | src/hdlc/hdlc_session.cpp:360-415 | new state, status and bytes of a UA; negotiated limits are kept even if it was not built; the object stays valid, and unless Ok is returned neither phase nor counters move and nothing is built |
| SessionObject.HdlcSession.BuildDisconnectRequest | src/hdlc/hdlc_session.cpp:423-444 | new state, status and bytes of a DISC; the object stays valid, and unless Ok is returned neither phase nor counters move and nothing is built |
| SessionObject.HdlcSession.BuildDisconnectResponse | src/hdlc/hdlc_session.cpp:446-464 | new state, status and bytes of the UA that answers a DISC; the object stays valid, and unless Ok is returned neither phase nor counters move and nothing is built |
| SessionObject.HdlcSession.BuildDmResponse | src/hdlc/hdlc_session.cpp:466-479 | new state, status and bytes of a DM; the object stays valid, and unless Ok is returned neither phase nor counters move and nothing is built |
| SessionObject.HdlcSession.BuildInformationFrame | src/hdlc/hdlc_session.cpp:481-505 | an I-frame is built only when connected and within the window, and then advances V(S); the object stays valid, and unless Ok is returned neither phase nor counters move and nothing is built |
| SessionObject.HdlcSession.BuildReceiveReadyFrame | src/hdlc/hdlc_session.cpp:507-520 | an RR (SessionLaws.ReadySays) announces V(R) and changes nothing; the object stays valid |
| SessionObject.HdlcSession.ReceiveFrame | src/hdlc/hdlc_session.cpp:522-538 | new state and status for any frame, by address and kind (SessionLaws.StrangersRefused); the object stays valid, and unless Ok is returned neither phase nor counters move |
| SessionObject.HdlcSession.ReceiveInformationFrame | src/hdlc/hdlc_session.cpp:579-602 | new state and status for an I-frame; the object stays valid, and unless Ok is returned neither phase nor counters move |
| SessionObject.HdlcSession.ReceiveSupervisoryFrame | src/hdlc/hdlc_session.cpp:604-629 | new state and status for a supervisory frame; the object stays valid, and unless Ok is returned neither phase nor counters move |
| SessionObject.HdlcSession.ReceiveUnnumberedFrame | src/hdlc/hdlc_session.cpp:631-756 | new state and status for SNRM, UA, DISC, DM and the others; the object stays valid, and unless Ok is returned neither phase nor counters move |
| SessionObject.HdlcSession.ReceiveSnrmFrame | src/hdlc/hdlc_session.cpp:639-685 | new state and status for an SNRM, with its parameters, its user information or its refusal; the object stays valid, and unless Ok is returned neither phase nor counters move |
| SessionObject.HdlcSession.ReceiveUaFrame | src/hdlc/hdlc_session.cpp:687-731 | new state and status for a UA, which may carry the negotiated limits; the object stays valid, and unless Ok is returned neither phase nor counters move |
| SessionNegotiation.AnswerBuilt | src/hdlc/hdlc_session.cpp:360-415 | a UA is built if and only if a request is pending at a server and the frame has room; with parameters also the new transmit length is zero or at least 23 |
| SessionNegotiation.BuildExact | src/hdlc/hdlc_session.cpp:560-577 | a frame is built if and only if its Information fits the frame limit, the length field and the Information limit |
| SessionNegotiation.AgreementExact | src/hdlc/hdlc_session.cpp:375-401 | whatever block was accepted, the UA that can be built connects both sides through the bytes exchanged; the server holds the minima, the client what 16 bits carry of them, and what one may transmit is what the other receives if and only if, each way, the proposal or the server's length is below 65536 |
| SessionNegotiation.Disagreement | src/hdlc/hdlc_session.cpp:142-195 | in a run from the start a server keeps a length of 65636 and tells the client 100 |
| SessionNegotiation.NegotiationAgrees | src/hdlc/hdlc_session.cpp:332-401 | through the bytes exchanged, an SNRM with a block is accepted, and its UA, built if and only if it fits, connects both sides; each value is the minimum of proposal and capability, and what one side may transmit is what the other receives |
| SessionNegotiation.AgreedMinimum | src/hdlc/hdlc_session.cpp:183-195 | nothing is agreed that one side cannot do, and exactly the most that both can do if and only if both of the client's lengths survive the 16 bits of the block beside the server's bound |
| SessionNegotiation.ConformingAnswer | docs/04_hdlc_session_requirements.md:142-147 | the windows in the UA are within 1 to 7 if and only if none is zero and, each way, the proposal or the server stays within 7; the lengths in the UA are within 2030 if and only if, each way, the proposal or the server is, or their minimum modulo 2^16 |
| SessionNegotiation.NonconformingAnswer | docs/04_hdlc_session_requirements.md:201-202 | two stations that can do 4096 bytes and 8 frames agree on both through the bytes exchanged, whenever the server's frames have room for the UA |
| SessionNegotiation.NeverRatchets | src/hdlc/hdlc_session.cpp:375-401 | after any calls the server answers the latest proposal with its original capability |
| SessionLimits.RoomExact | src/hdlc/hdlc_codec.cpp:18-40 | a station whose frame limit admits a bare frame builds a frame if and only if its Information is within the smaller of the frame's room and an explicit limit |
| SessionLimits.CapExact | src/hdlc/hdlc_session.cpp:481-577 | a session that may send keeps to the transmit length it reports if and only if the room in its frames does |
| SessionLimits.StepLimits | src/hdlc/hdlc_session.cpp:296-756 | a call that applies a block ties the frame limit to the negotiated length, and every other call leaves all limits as they are |
| SessionLimits.CappedForever | src/hdlc/hdlc_session.cpp:481-577 | in every run in which some call applied a block, every later I-frame is within the negotiated length then in force if and only if that is not zero or no frame has room for anything |
| SessionLimits.ZeroUncapped | src/hdlc/hdlc_session.cpp:375-401 | in a run from the start a server negotiates a transmit length of zero and sends a byte |
| SessionLimits.UncappedBefore | src/hdlc/hdlc_session.cpp:229-253 | in every run in which no call applied a block the limits are the configured ones, and I-frames keep to the reported length if and only if the configured room does |
| SessionLimits.Uncapped | src/hdlc/hdlc_session.cpp:229-253 | with the defaults, a new client connects without a block and then sends 129 bytes although it reports 128 |
| SessionLimits.NoBlockNoChange | src/hdlc/hdlc_session.cpp:375-401 | an SNRM that does not start with 0x81 0x80 and a third byte is accepted with all of its Information as user information and no negotiation pending, and leaves earlier limits in place, also after it is answered |
| SessionLimits.EarlierLimitsStay | src/hdlc/hdlc_session.cpp:375-401 | in a run from the start a server negotiates 200 bytes and a window of 3, disconnects, and holds both in a connection that was asked for without a block |
| SessionLimits.UnreadNoChange | src/hdlc/hdlc_session.cpp:687-731 | a UA without a block, or with one that cannot be read, connects the client and leaves its earlier limits in place |
| SessionClosing.DisconnectAgrees | src/hdlc/hdlc_session.cpp:417-464 | through the bytes exchanged, DISC and UA leave both sides disconnected with cleared counters and unchanged limits, and deliver the user information; the answering side owes nothing more, and what the requester owed it still owes |
| SessionClosing.RefusalReleases | src/hdlc/hdlc_session.cpp:655-659 | a malformed request is refused with its status and exactly one DM, which releases the waiting client |
| SessionClosing.DmPendingStep | src/hdlc/hdlc_session.cpp:466-479 | a pending DM survives into a connection if and only if a later request is pending, its UA has room, and it is answered before the DM is built |
| SessionClosing.StaleDm | src/hdlc/hdlc_session.cpp:655-659 | after a malformed request and a good one both the UA and the DM are built with Ok, and the DM, as bytes, disconnects the client of a server that stays connected |
| SessionClosing.DisconnectPendingStep | src/hdlc/hdlc_session.cpp:733-753 | a pending disconnect leaves its connection unanswered if and only if a DM arrives or this side builds a DISC itself, which it does exactly when connected and when the user information fits |
| SessionClosing.StaleDisconnect | src/hdlc/hdlc_session.cpp:446-464 | after a DM and a new SNRM, a leftover disconnect answer is built with Ok and ends the new connection |
| SessionClosing.StuckStep | src/hdlc/hdlc_session.cpp:296-756 | a session that waits for an answer is released by a UA or a DM from its peer and by nothing else, and until then builds nothing |
| SessionClosing.CrossedRequests | src/hdlc/hdlc_session.cpp:733-736 | when both sides have asked to disconnect, each refuses the other's request |
| SessionClosing.WaitingForever | src/hdlc/hdlc_session.cpp:296-756 | two sessions that wait with no SNRM, UA or DM on the lines stay as they are and send nothing, whatever is called or heard |
| Link.WindowTest | src/hdlc/hdlc_session.cpp:275-280 | the window test modulo 8 is the test on true counts |
| Link.NrTest | src/hdlc/hdlc_session.cpp:590-600 | an N(R) is accepted if and only if it stands for a count between what is acknowledged and what was sent, and then for one only |
| Link.WindowExact | src/hdlc/hdlc_session.cpp:252-280 | numbering modulo 8 is safe for all counter values if and only if the window is at most 7 |
| Link.WindowOverrun | src/hdlc/hdlc_session.cpp:275-280 | with a larger window eight payloads look like none and acknowledging any of them is refused |
| Link.ReceiveNumbered | src/hdlc/hdlc_session.cpp:579-602 | a payload within 8 of the next one is accepted if and only if it is the next one, and then V(A) stands for the count that it acknowledges |
| Link.ArrivesOrNot | src/hdlc/hdlc_codec.cpp:206-351 | what arrives on a damaging line is the frame that was sent, or nothing |
| LinkCalls.RequestTaken | src/hdlc/hdlc_session.cpp:639-685 | a disconnected server accepts every request of a client with windows in range, and owes an answer |
| LinkCalls.ResponseAccepted | src/hdlc/hdlc_session.cpp:687-713 | a waiting client accepts every answer with windows in range, and starts counting from zero |
| LinkCalls.Refuses | src/hdlc/hdlc_session.cpp:579-756 | without a connection nothing numbered and no DISC is accepted, and an SNRM only by a disconnected side: the state is left alone |
| LinkRuns.DoInv | src/hdlc/hdlc_session.cpp:296-756 | every action of a client, a server or the lines, disconnects and reconnects included, keeps the invariant that relates counters, counts, stages and frames in flight |
| LinkRuns.Safety | src/hdlc/hdlc_session.cpp:296-756 | in every run over lossy, damaging lines, with disconnects by either side and any number of connections, what is accepted in each connection is a prefix of what was sent in it, and acknowledged, delivered and sent counts stay in order and within a window of at most 7 |
| LinkRuns.FaithfulOk | src/hdlc/hdlc_session.cpp:296-756 | in every run over faithful lines, from the SNRM on and without disconnects, every frame that arrives is received with Ok |
| LinkRuns.Converges | src/hdlc/hdlc_session.cpp:275-629 | once faithful lines have drained and the last frames announced V(R), all is delivered and acknowledged, V(A) is V(S), both windows are open, and both sides are connected if anything was sent |
| LinkProgress.CanComeToRest | src/hdlc/hdlc_session.cpp:481-629 | from every state of every faithful run, if both sides can build a frame without Information, some continuation sends no further payload and has everything delivered and acknowledged, with both windows open |
| LinkPartings.RefusedExactly | src/hdlc/hdlc_session.cpp:579-756 | when nothing is lost, in every run with disconnects and reconnects, an arriving frame is refused if and only if it is an I-frame, an RR or a DISC and its receiver has asked to disconnect; a refusal changes nothing |
| LinkLosses.LossMakesMissing | src/hdlc/hdlc_session.cpp:481-505 | when the line loses the packet with the next payload, from anywhere in the line, that payload is missing |
| LinkLosses.DamageMakesMissing | src/hdlc/hdlc_codec.cpp:206-351 | so it is when that packet arrives and cannot be decoded |
| LinkLosses.LoseMakesMissing | src/hdlc/hdlc_session.cpp:579-602 | the same for the action of losing it, from either side, in every state of a run in which the receiver is up |
| LinkLosses.StalledForever | src/hdlc/hdlc_session.cpp:481-602 | in no continuation of a connection in which the next payload is missing is anything more delivered in its direction, and at most 7 payloads from the missing one on are ever sent |
| LinkLosses.MissingExactly | src/hdlc/hdlc_session.cpp:481-602 | while the receiver is up and has not got everything, the next payload is missing if and only if no continuation of the connection delivers anything more |

## Left out

- The C ABI (`src/hdlc/hdlc_c_api.cpp`) and the Go package: thin wrappers and a simpler port.
- Null arguments and failed allocations: arrays and sequences take their place, so `InvalidArgument` and `InternalError` do not occur.
- `ValidateHdlcCrc` and `MakeClientAddress`: one comparison each.
- Sizes are unbounded, except in the reassembler's comparison, where wrap-around at 2^64 changes the outcome. In the codec it could matter only for Information near the size of the address space.
- DM frames on the two lines: clients whose requests are well formed never cause one. Their effects are in `SessionClosing`.
- LinkRuns.Converges: the lines are faithful and nobody disconnects. What a DISC makes the other side refuse is stated by `LinkPartings.RefusedExactly`, and what a loss does without retransmission by `LinkLosses.MissingExactly`.
- FrameDamage.DamageRejected: damage that changes the length of a frame is not covered. Damage of the same length that is accepted is given by `UndetectedDamage.AcceptedExactly` where it leaves the header alone.
- Timers, retransmission, transport, LLC and APDU layers: not part of the code.
