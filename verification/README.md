# Verification of the OSF block pipeline

This project models the reading and writing of OSF measurement files in Dafny and
proves what the format and its implementations are for: what was written is what
is read, damage and crashes are noticed or survived, and nothing is counted twice
or lost. The model follows the C++ implementation; where the Rust one says the same
thing more plainly (the channel builder, relative stamps, the reconstruction of
timestamps) it follows that.

## How it is laid out

Each algorithm exists twice: as a function, about which the theorems are stated, and,
where the original changes state step by step, as a class or a method with loops that
is proved to compute that function. Changing a step of a method breaks its contract;
changing the function as well breaks the theorems.

- `Bytes`, `OsfTypes`, `Stream`: byte strings, little-endian helpers, the block model,
  input streams.
- `Crc32c`: a bit-serial register as reference, its GF(2) linearity, the tables,
  slicing-by-8, burst detection.
- `Payload`, `Frame`, `Codec`: block payloads printed and parsed, frames, seals and
  budgets, and the two against each other under cuts and damage.
- `Grammar`, `HeaderGrammar`: which bytes are which blocks and which lines are headers,
  stated byte by byte, and that the parsers accept exactly these.
- `BlockStream`, `Skips`, `ReaderStats`: the reader as a stepping machine, what it passes
  by, and its bookkeeping.
- `PayloadReader`, `Reader`: the reader as it runs.
- `Builder`, `Loader`, `ChannelBuilders`, `DataChannels`, `LoadedTyped`: from blocks to
  channels to samples.
- `BlockMeaning`, `Sections`: what any list of blocks and any section of frames describes,
  which of them make sense, and that loading gives exactly that.
- `Chunking`, `BlockEncode`: write calls cut into frames, and the encoders.
- `CallMeaning`: what a list of write calls says of each channel (its values,
  timestamps and segments), and that the builder makes exactly that of it.
- `StreamingSpec`, `StreamingWriter`, `WriterFacts`, `Lifecycle`, `CrashSafety`,
  `SignatureIndex`: the streaming writer over a disk that may fail at any point, and the
  one channel index readers do not give back.
- `Definitions`, `StreamingCalls`, `StreamedFile`, `BlockCalls`: both writers told from
  their definitions and calls alone: what is accepted, and what the file then opens to.
- `BlockSpec`, `BlockRoundTrip`, `BlockWriter`, `Copy`, `CopyManager`: the accumulating
  writer and copies of loaded files.
- `GuardSpec`, `StaleValueGuard`, `GuardedFile`: repeating stale values, and what of it
  is found in the file.
- `Header`, `Metablock`, `WholeFile`: the magic line, the metablock as an opaque body,
  and whole files.
- `MessageEvent`: two encodings of one meaning.

## Modelling decisions

- Samples are byte strings of their datatype's width, so one definition covers the
  eleven numeric types and GPS (24 bytes); a bool is one byte, 0 or 1. Sample rates are
  the 64-bit patterns of doubles; `rate > 0` and "positive and finite" are the ranges of
  patterns that mean so.
- The offset of the i-th sample of a segment is a function `Offset` of which only
  `off(0, rate) == 0` is known, so no theorem depends on floating-point rounding.
- The disk is append-only. Which operations fail, and how much of a failing write
  survives, is a script; theorems hold for every script. A crash keeps the durable bytes
  and any prefix of the others.
- The metablock text is opaque: serializer and parser are parameters, and theorems ask
  only that the parser gives back the channel table the text was printed from.
- Unbounded integers stand for 64-bit sizes; widths that can wrap (length fields, u16
  and u32 fields, timestamps) are written out.

## What the proofs found

- Auto-bump: the test that widens the length field forgets the four bytes of the frame
  CRC, so with CRCs on a two-byte channel whose largest sample has 65523 to 65526 bytes
  is refused (`AutobumpExact` gives the exact condition).
- Channel index 0xFFFE can be assigned by addChannel (streamingwriter.cpp:168,
  blockwriter.cpp:248) but is passed by on reading (manager.cpp:702), also in files
  without integrity; with integrity the reader takes its blocks for signatures. So the
  end-to-end laws fail there, and exactly there: `WriteLoadRoundTrip`, `BlockFileOpens`,
  `CopyPreserves`, `CrashSafeExactly` and `CrashedFileOpens` are if-and-only-if
  statements over every channel table, and `LastChannelLosesSample` reaches a failing file
  by public calls. The Rust manager (manager.rs:270-281) has no such case and would
  reject the index of a signature block.
- A metablock that declares an index twice: the reader goes by the first declaration, the
  builders by the last, and the other builders are finalised empty (`LoadSection`).
- reader.h:113 says the reader is finished after any error. A payload that does not
  parse does not finish it (reader.cpp:988); `PayloadErrorResumes` states what happens.
- A cut inside a skipped block of an unsupported channel is an error, not the end of the
  stream (reader.cpp:738), so truncation yields a prefix exactly when that is not the case.
- The trailer's length field is counted before it is read (reader.cpp:652), so the
  reported size of the data section exceeds the data exactly when the data ends there.
- A refused call can settle a channel's kind in the streaming writer: an append without an
  open segment locks its channel as equidistant before it is refused
  (streamingwriter.cpp:649-658), so `Settler` is the first proper call, accepted or not.
- A byte-array channel with samples cannot be copied: the copy declares it as byte array and
  adds its samples as binary (blockwriter.cpp:815-825); `CopyExactly` has the exact condition.
- stalevalueguard.h says a zero-count batch is forwarded as it is; the writer refuses it.

## Model

| member | source | states |
|---|---|---|
| `Bytes.UnLeOfLe` | implementations/cpp/src/binaryio_p.h:36-58 | Writing a number into k bytes and reading it back gives the number modulo 256^k, so a value that fits returns unchanged. |
| `Bytes.LeOfUnLe` | implementations/cpp/src/binaryio_p.h:92-113 | Every byte string is the little-endian form of the number read from it; with UnLeOfLe the two helpers are inverse. |
| `Bytes.I64RoundTrip` | implementations/cpp/src/binaryio_p.h:123-125 | A signed 64-bit timestamp survives its two's-complement encoding. |
| `Bytes.I64Canonical` | implementations/cpp/src/binaryio_p.h:68-70 | Any eight bytes are the encoding of the timestamp read from them. |
| `Crc32cModel.MakeTables` | implementations/cpp/src/crc32c.cpp:20-37 | Entry [k, n] of the tables is byte n advanced by k + 1 zero bytes of the bit-serial register. |
| `Crc32cModel.ZerosBySlices` | implementations/cpp/src/crc32c.cpp:57-59 | The eight table look-ups of one round, taken together, are the register advanced by eight bytes: GF(2) linearity in its final form. |
| `Crc32cModel.SliceStep` | implementations/cpp/src/crc32c.cpp:54-62 | One slicing round over eight bytes leaves the register where clocking in the eight bytes bit by bit would. |
| `Crc32cModel.TableStep` | implementations/cpp/src/crc32c.cpp:63-65 | One table step of the tail loop is one byte clocked in bit by bit. |
| `Crc32cModel.Crc32c.Update` | implementations/cpp/src/crc32c.cpp:49-67 | From any state and for any length, slicing-by-8 ends in the state of the bit-at-a-time reflected Castagnoli register (section 12.1 of RFC 3720). |
| `Crc32cModel.Crc32c.Value` | implementations/cpp/src/crc32c.cpp:69-71 | After any updates since the last reset the value is the CRC of everything fed in, in order, and the accumulator is left alone. |
| `Crc32cModel.OneShot` | implementations/cpp/src/crc32c.cpp:73-77 | A single call over a buffer gives the CRC of the buffer. |
| `Crc32cModel.SerialConcat` | implementations/rust/osf-core/src/integrity.rs:55-62 | Feeding a then b equals feeding a + b: the CRC does not depend on how the message is split. |
| `Crc32cModel.CheckValue` | implementations/rust/osf-core/src/integrity.rs:87-92 | The published check value: the CRC of the ASCII string 123456789 is E3069283. |
| `Crc32cModel.ChecksIsResidue` | implementations/cpp/src/reader.cpp:759-776 | The stored CRC matches exactly when the register over message and CRC together ends on one fixed residue. |
| `Crc32cModel.SealedChecks` | implementations/cpp/src/writercommon.cpp:99-102 | A message followed by its own stored CRC passes the check. |
| `Crc32cModel.BurstChangesRegister` | implementations/cpp/src/crc32c.cpp:49-67 | Two messages of equal length that differ only inside one four-byte window leave the register in different states. |
| `Payload.PayloadRoundTrip` | implementations/cpp/src/blockencode.cpp:88-327 | Every payload the encoders can write routes and parses back to the block it was written from, under OSF5 and, for every fixed-width datatype (start, continued and absolute blocks), under OSF4 too; a string or binary loses its last byte under OSF4. |
| `Payload.TerminatedReadsBack` | implementations/cpp/src/reader.cpp:198-205 | So a string or binary stored with a terminating zero comes back under OSF4. |
| `Grammar.RouteExactly` | implementations/cpp/src/reader.cpp:912-1074 | Every payload, in both directions: it is read as a block if and only if its bytes are laid out as that block (control byte, timestamps, rate, count, records, spelled out byte by byte), it is skipped if and only if its control byte says so, and everything else is InvalidBlock; the version matters only for strings and binaries behind absolute timestamps. |
| `Payload.SplitJoined` | implementations/cpp/src/reader.cpp:133-176 | Reading n records of a fixed size from their concatenation returns the records, whatever follows them. |
| `Payload.OneMessageReadsBack` | implementations/cpp/src/reader.cpp:198-205 | A timestamped string comes back with its last byte dropped under OSF4 and unchanged under OSF5. |
| `Payload.RelReadsBack` | implementations/cpp/src/reader.cpp:472-496 | A run of deltas and values, with or without the count prefix, parses back to itself. |
| `Payload.MultiMessagesReadBack` | implementations/cpp/src/reader.cpp:232-314 | Several strings or binaries of one size in one block are split evenly and come back, zero bytes and all, under either terminator rule. |
| `Frame.MaxSamplesExact` | implementations/cpp/src/writercommon.cpp:54-80 | The per-block maximum is exact: n samples fit the budget if and only if n does not exceed it; it is never below 1000. |
| `Frame.SealIsFrame` | implementations/cpp/src/writercommon.cpp:89-103 | Sealing a frame yields the frame of the payload with its CRC appended: the patched length counts four more bytes and nothing else moves. |
| `Frame.SealedFrameChecks` | implementations/cpp/src/reader.cpp:759-776 | The reader's check accepts every frame sealed this way. |
| `BlockStream.YieldIsStable` | implementations/cpp/src/reader.cpp:780-888 | A step that yields depends only on the bytes it consumes. |
| `BlockStream.TruncationYieldsPrefix` | implementations/cpp/src/reader.cpp:780-888 | For every byte string and channel table, the items read from a cut are a prefix of the items of the whole, if and only if the cut does not fall inside the payload of a skipped block of an unsupported channel. |
| `Codec.FrameStep` | implementations/cpp/src/reader.cpp:854-911 | A complete frame of a declared channel is consumed whole and delivered, whatever its payload says. |
| `Codec.BlockReadsBack` | implementations/cpp/src/reader.cpp:780-1074 | A written frame, sealed or not, reads back as its block and the reader stands right behind it. |
| `Codec.CutReadsBack` | implementations/cpp/src/reader.cpp:780-888 | Cutting a written data section anywhere leaves exactly its complete frames, and the truncation counter is raised if and only if at least two bytes of an incomplete frame remain. |
| `Codec.AllReadBack` | implementations/cpp/src/reader.cpp:780-1074 | A written data section reads back block for block. |
| `Codec.BurstIsSkipped` | implementations/cpp/src/reader.cpp:894-911 | Any damage confined to four consecutive bytes behind the length field of a sealed frame makes the reader skip that block as CRC-failed and go on at the following frame. |
| `Codec.FrameCheckIsResidue` | implementations/cpp/src/reader.cpp:759-776 | The three-part frame check looks at the frame as one byte string. |
| `Skips.SignaturePassed` | implementations/cpp/src/reader.cpp:801-833 | A signature block is passed by on its own u32 length, reported as such, and the reader stands behind it. |
| `Skips.ZeroLengthPassed` | implementations/cpp/src/reader.cpp:854-866 | A zero-length block is reported and passed by. |
| `Skips.UnsupportedPassed` | implementations/cpp/src/reader.cpp:870-875 | A block of an unknown datatype is passed by unread, its payload kept exactly when asked for. |
| `Skips.ControlPassed` | implementations/cpp/src/reader.cpp:934-976 | In files with and without CRCs, a control byte that carries no samples is passed by with its reason: deprecated, status event, reserved, or one of the unspecified message-event shapes. |
| `Skips.FramedRoutes` | implementations/cpp/src/reader.cpp:890-932 | Any undamaged frame of a declared channel is routed by its payload without the CRC, and the reader stands behind it. |
| `Skips.TrailerEnds` | implementations/cpp/src/reader.cpp:793-799 | Nothing behind the trailer index is read as a block. |
| `Skips.UndeclaredFails` | implementations/cpp/src/reader.cpp:835-844 | A block on an undeclared index is an error and ends the section. |
| `Skips.BadWidthFails` | implementations/cpp/src/reader.cpp:848-849 | So is one on a channel whose length field is neither two nor four bytes wide. |
| `Skips.ShortFrameEnds` | implementations/cpp/src/reader.cpp:873-887 | A frame that says more than there is ends the section, with an error exactly if its channel's datatype is unknown. |
| `Skips.TrailerCounted` | implementations/cpp/src/reader.cpp:647-687 | A complete trailer with its magic string is counted to its last byte. |
| `Skips.ShortTrailerEnds` | implementations/cpp/src/reader.cpp:647-687 | A trailer that says more than there is still ends the section, reported as cut. |
| `Skips.ShortSignatureEnds` | implementations/cpp/src/reader.cpp:805-828 | So does a signature block that says more than there is, without passing for a trailer. |
| `ReaderStats.BlocksConserved` | implementations/cpp/src/reader.cpp:1076-1090 | For every byte string the number of successful blocks, blocksTotal, and the sum over channels of read and skipped blocks agree; each skip counter and each channel's samples and segments are the numbers of such items in the stream. |
| `ReaderStats.BytesConserved` | implementations/cpp/src/reader.cpp:780-911 | Each yielding call counts exactly the bytes it consumes, at least four, so at most |data| / 4 + 1 calls are made before the end; the reported size exceeds the data if and only if the data ends inside the trailer's length field. |
| `ReaderStats.EndReported` | implementations/cpp/src/reader.cpp:647-687 | At most one truncation is ever counted, and truncation and trailer are reported exactly as the finishing call met them. |
| `ReaderStats.CleanEndCountsAll` | implementations/cpp/src/reader.cpp:784-791 | At a clean end every byte but at most one has been counted. |
| `ReaderStats.PayloadErrorResumes` | implementations/cpp/src/reader.cpp:988-990 | A payload that does not parse is reported once and reading goes on at the next frame boundary. |
| `PayloadReader.PayloadCursor.ReadSampleCount` | implementations/cpp/src/reader.cpp:120-125 | The cursor yields one sample without a prefix, or the u32 count and the bytes behind it, or an error when too little is left. |
| `PayloadReader.ReadNumericN` | implementations/cpp/src/reader.cpp:133-176 | The sample loop returns the first n fixed-size records decoded, or an error exactly when they are not all there. |
| `PayloadReader.ReadStampedN` | implementations/cpp/src/reader.cpp:173-188 | The timestamp/value loop returns n pairs or an error exactly when they are not all there. |
| `PayloadReader.ReadRelStampedN` | implementations/cpp/src/reader.cpp:456-470 | The delta/value loop returns n pairs or an error exactly when they are not all there. |
| `PayloadReader.ParseStartData` | implementations/cpp/src/reader.cpp:509-524 | The cursor-driven parser equals the declarative parser that PayloadRoundTrip inverts. |
| `PayloadReader.ParseContinuedData` | implementations/cpp/src/reader.cpp:526-533 | As above for continued data. |
| `PayloadReader.ParseContinuedRelStampData` | implementations/cpp/src/reader.cpp:472-496 | As above for relative stamps. |
| `PayloadReader.ParseAbsTsStringOrBinary` | implementations/cpp/src/reader.cpp:232-314 | As above for strings and binaries: equal split, degrade to one sample when the length does not divide, minimum size by version. |
| `PayloadReader.ParseAbsTimestampData` | implementations/cpp/src/reader.cpp:391-448 | As above for every datatype with absolute timestamps. |
| `PayloadReader.ParseMessageEventData` | implementations/cpp/src/reader.cpp:362-389 | As above for message events: length-prefixed, no terminator, surplus ignored. |
| `PayloadReader.RoutePayload` | implementations/cpp/src/reader.cpp:913-1074 | Decoding the control byte and dispatching computes the route that RouteExactly characterises for every payload, datatype and version. |
| `Stream.ByteStream.ReadN` | implementations/cpp/src/reader.cpp:35-44 | All requested bytes, or a report of truncation with the stream drained. |
| `Reader.VerifyFrameCrc` | implementations/cpp/src/reader.cpp:759-776 | Three updates of any alignment decide the check on the whole frame. |
| `Reader.BlockReader.constructor` | implementations/cpp/src/reader.cpp:574-596 | A new reader is unfinished, with zero counters for every declared channel. |
| `Reader.BlockReader.Drain` | implementations/cpp/src/reader.cpp:631-645 | Skipping in chunks of 4096 bytes consumes exactly the length, or drains a shorter stream and says so. |
| `Reader.BlockReader.ReadLengthField` | implementations/cpp/src/reader.cpp:599-619 | The field in two or four bytes, nothing at end of stream, an error for any other width. |
| `Reader.BlockReader.ConsumeTrailer` | implementations/cpp/src/reader.cpp:647-687 | Trailer length, body and magic trailer: position, flags and counters as the trailer step says. |
| `Reader.BlockReader.SkipSignature` | implementations/cpp/src/reader.cpp:801-833 | Signature blocks are skipped by their own length and counted. |
| `Reader.BlockReader.SkipBlock` | implementations/cpp/src/reader.cpp:713-753 | Skipping with or without payload capture; a stream that ends inside is an error and finishes the reader. |
| `Reader.BlockReader.DeliverPayload` | implementations/cpp/src/reader.cpp:890-1074 | CRC check and strip before the typed parse; counters follow the outcome. |
| `Reader.BlockReader.Next` | implementations/cpp/src/reader.cpp:780-1074 | One call is one step of the stepping machine with its bookkeeping; a finished reader returns nothing and changes nothing. |
| `Builder.ApplyKeepsInvariant` | implementations/rust/osf-core/src/manager.rs:345-541 | Every accepted block keeps the builder invariant (segments tile the samples, timestamps pair with values, the anchor is the last timestamp) and the locked kind. |
| `Builder.ReachableInvariant` | implementations/rust/osf-core/src/manager.rs:331-541 | So does every sequence of blocks: a locked kind and the datatype never change. |
| `Builder.SamplesWithTimeCoversAll` | implementations/rust/osf-core/src/data_channel.rs:382-390 | Reconstruction yields every stored value once, in order. |
| `Builder.AnchorIsLastSample` | implementations/rust/osf-core/src/manager.rs:543-559 | In every reachable equidistant state the anchor is the last timestamp a reader of the segments reconstructs. |
| `Builder.RelTimesClosedForm` | implementations/rust/osf-core/src/manager.rs:951-1003 | The k-th timestamp of a relative run is the anchor plus the first k deltas, capped at the largest i64, and the run never decreases. |
| `Builder.RelCutIndependent` | implementations/rust/osf-core/src/manager.rs:501-541 | A relative run cut into two blocks builds the same channel as in one block. |
| `BlockMeaning.RelativeApplied` | implementations/rust/osf-core/src/manager.rs:501-541 | On a timestamped channel with an anchor t a block of deltas is accepted, keeps what is there, and adds one sample per delta: the k-th is stamped t plus the first k deltas, capped at the largest i64, and carries the k-th value; the anchor becomes the last stored timestamp. |
| `BlockMeaning.BuilderExactly` | implementations/rust/osf-core/src/manager.rs:331-541 | Over any list of blocks, with no builder state in the statement: the builder ends with exactly the values, timestamps and segments the list describes, or, if some block does not fit behind those before it (wrong datatype, mixed layouts, continuation without start, delta without anchor), with that block's error. |
| `BlockMeaning.LoadExactly` | implementations/cpp/src/manager.cpp:649-738 | Whatever bytes are loaded: loading succeeds if and only if every item read is a block of a declared channel (or of index 0xFFFE) that fits behind the earlier ones of its channel, and then it hands out exactly the channels the blocks describe, in table order, also when an index is declared twice. |
| `Sections.SectionLoads` | implementations/cpp/src/manager.cpp:660-738 | Any frames on any channels, under OSF4 or OSF5, sealed or not: the section loads if and only if each block fits behind the earlier ones of its channel, and then to the channels that the payload layouts describe. |
| `Sections.RelativeSectionLoads` | implementations/rust/osf-core/src/manager.rs:951-1003 | An absolute frame followed by any frames of deltas loads to the absolute samples followed by one sample per delta, each stamped with the last absolute timestamp plus the deltas up to it; under both versions, sealed or not. |
| `Sections.SegmentSectionLoads` | implementations/cpp/src/reader.cpp:987-1016 | Start frames with any continued frames behind each load to one channel with all values in order and one segment per start frame; under both versions, sealed or not. |
| `Loader.InterleavingIndependent` | implementations/cpp/src/manager.cpp:691-738 | If one stream builds, every stream with the same blocks per channel builds the same channels. |
| `Loader.BuildIsPerChannel` | implementations/cpp/src/manager.cpp:691-714 | A successful build leaves each channel as its own blocks make it. |
| `Loader.PerChannelBuilds` | implementations/cpp/src/manager.cpp:691-714 | Conversely, if each channel's own blocks fold, the interleaved stream builds to them. |
| `Loader.SignatureIndexIgnored` | implementations/cpp/src/manager.cpp:691-714 | A channel comes out untouched if its index is 0xFFFE and as its blocks make it otherwise. |
| `Loader.SignatureIndexIsEmpty` | implementations/cpp/src/manager.cpp:697-704 | Whatever bytes are loaded, a loaded channel with index 0xFFFE holds no value. |
| `CallMeaning.CallTaken` | implementations/rust/osf-core/src/manager.rs:345-541 | An accepted write call puts its values and timestamps behind those of its channel, opens or lengthens a segment as it says, and does nothing else. |
| `CallMeaning.CallsTaken` | implementations/rust/osf-core/src/manager.rs:331-541 | A list of accepted calls leaves on each channel the old values and timestamps followed by those of the calls on that channel, in order, and the segments those calls lay. |
| `CallMeaning.CallsBuildChannel` | implementations/cpp/src/manager.cpp:691-738 | From fresh builders, the finished channel is the one that holds exactly what the calls wrote to it. |
| `ChannelBuilders.ChannelBuilder.ApplyStartData` | implementations/rust/osf-core/src/manager.rs:345-403 | The in-place transition for start blocks; an error leaves the channel unchanged. |
| `ChannelBuilders.ChannelBuilder.ApplyContinuedData` | implementations/rust/osf-core/src/manager.rs:405-440 | The in-place transition for continued blocks. |
| `ChannelBuilders.ChannelBuilder.ApplyAbsTimestamped` | implementations/rust/osf-core/src/manager.rs:442-499 | The in-place transition for absolute timestamps. |
| `ChannelBuilders.ChannelBuilder.ApplyRelTimestamped` | implementations/rust/osf-core/src/manager.rs:501-541 | The in-place transition for relative stamps, whose effect RelativeApplied states in closed form; errors change nothing. |
| `ChannelBuilders.ExtendRel` | implementations/rust/osf-core/src/manager.rs:951-1003 | The loop over deltas appends the saturating running sums and returns the new anchor. |
| `ChannelBuilders.LoadSection` | implementations/cpp/src/manager.cpp:660-738 | Reader, builders and finalisation give exactly the channels of Load, also when a metablock declares an index twice (the reader goes by the first declaration, the builder by the last), and the reader's final statistics are those BlocksConserved is about. |
| `DataChannels.AllSamplesCoverValues` | implementations/cpp/src/datachannel.cpp:118-189 | For every loaded channel the sample list holds each stored value once, in order, with as many entries as values. |
| `DataChannels.SampleTimes` | implementations/rust/osf-core/src/data_channel.rs:348-355 | Sample i of a segment comes out stamped with the segment's start if i is 0 or the rate is not positive, and else with the start plus the offset of i at that rate, kept within the range of an i64; for every segment of every loaded channel. |
| `DataChannels.SampleHasSegment` | implementations/rust/osf-core/src/data_channel.rs:382-390 | Every sample of a loaded equidistant channel belongs to a segment, so SampleTimes fixes every timestamp. |
| `DataChannels.SamplesVector` | implementations/cpp/src/datachannel.cpp:118-189 | The nested loops stay in bounds and produce the list whose values AllSamplesCoverValues and whose timestamps SampleTimes fix. |
| `LoadedTyped.LoadedIsWell` | implementations/cpp/src/manager.cpp:649-738 | Whatever bytes are loaded, under OSF4 or OSF5, every resulting channel is well formed: segments tile, vectors pair, values are of their type. |
| `Chunking.ChunkingInvisible` | implementations/cpp/src/streamingwriter.cpp:542-677 | The chunks of a call fold to the same channel as the call in one block: nothing lost, nothing reordered, boundaries kept. |
| `Chunking.CallBlocksFit` | implementations/cpp/src/writercommon.cpp:47-103 | Every chunk is non-empty and fits the budget, so a sealed length field never wraps. |
| `Chunking.ChunkingMinimal` | implementations/cpp/src/streamingwriter.cpp:601-635 | No framing of the call within the same budget uses fewer frames. |
| `Chunking.CallPrefix` | implementations/cpp/src/streamingwriter.cpp:612-635 | The first j frames of a call are all frames of a shorter call. |
| `BlockEncode.BeginFrame` | implementations/cpp/src/blockencode.cpp:18-52 | Index and length appended, or an error and no change if the width is wrong or the payload too long. |
| `BlockEncode.EncodeStartData` | implementations/cpp/src/blockencode.cpp:88-131 | Appends exactly the frame of the block, or reports the error and changes nothing. |
| `BlockEncode.EncodeContinuedData` | implementations/cpp/src/blockencode.cpp:133-165 | As above for continued data. |
| `BlockEncode.EncodeAbsTimestampData` | implementations/cpp/src/blockencode.cpp:180-219 | As above for timestamped numeric and GPS samples. |
| `BlockEncode.EncodeAbsTimestampVariable` | implementations/cpp/src/blockencode.cpp:240-283 | As above for one string or binary. |
| `BlockEncode.ApplyFrameCrc` | implementations/cpp/src/writercommon.cpp:89-103 | Patches and extends the block in place to its sealed form. |
| `StreamingWriters.DurableFile.Write` | implementations/cpp/src/streamingwriter.cpp:307-311 | Appends all of the data or, on failure, some prefix of it. |
| `StreamingWriters.DurableFile.Force` | implementations/cpp/src/streamingwriter.cpp:312-316 | Makes all pending bytes durable, or fails. |
| `StreamingWriters.StreamingWriter.AddChannelDef` | implementations/cpp/src/streamingwriter.cpp:147-180 | Accepted definitions get consecutive indices and an unlocked state; refusals change nothing. |
| `StreamingWriters.StreamingWriter.StartFile` | implementations/cpp/src/streamingwriter.cpp:184-267 | Header, metablock and force, or no file at all. |
| `StreamingWriters.StreamingWriter.CloseFile` | implementations/cpp/src/streamingwriter.cpp:269-290 | Closing returns the sticky error if there is one, and only once. |
| `StreamingWriters.StreamingWriter.WriteScratch` | implementations/cpp/src/streamingwriter.cpp:294-318 | Seal, write, force; the first failure breaks the writer with a sticky error. |
| `StreamingWriters.StreamingWriter.RequireChannel` | implementations/cpp/src/streamingwriter.cpp:327-406 | State, index, kind and datatype checks in order; success locks the kind, refusal changes nothing. |
| `StreamingWriters.StreamingWriter.StartEquidistantSegment` | implementations/cpp/src/streamingwriter.cpp:580-636 | The whole call, chunk loop included, is the transition Perform, whose answer AcceptanceExactly tells. |
| `StreamingWriters.StreamingWriter.AppendEquidistantSamples` | implementations/cpp/src/streamingwriter.cpp:638-677 | As above. |
| `StreamingWriters.StreamingWriter.WriteTimestampedSamples` | implementations/cpp/src/streamingwriter.cpp:542-576 | As above; GPS included. |
| `StreamingWriters.StreamingWriter.WriteTimestampedVariable` | implementations/cpp/src/streamingwriter.cpp:486-538 | As above for strings and binaries. |
| `StreamingCalls.AcceptanceExactly` | implementations/cpp/src/streamingwriter.cpp:327-406 | Told from the earlier calls alone: a call returns success if and only if it has samples, a positive finite rate (start), a declared index and its datatype, is of the kind of the first proper call on its channel, has an accepted start before it (append) and fits a frame (string, binary), and the disk does not fail; a refusal returns the first objection's error and leaves the disk alone. |
| `StreamingCalls.HealthyAnswers` | implementations/cpp/src/streamingwriter.cpp:339-406 | On a disk that does not fail every call is answered this way, and the calls that succeeded are exactly the accepted ones. |
| `Lifecycle.RunEvolves` | implementations/cpp/src/streamingwriter.cpp:147-406 | Over any sequence of public calls and any disk failures: phases only move forward, durable bytes are never taken back once started, locks and datatypes stay, a broken writer's disk and error are frozen. |
| `Lifecycle.BrokenForGood` | implementations/cpp/src/streamingwriter.cpp:294-337 | After a disk failure every later write returns the first error without touching the disk, and so does close. |
| `Lifecycle.PerformEvolves` | implementations/cpp/src/streamingwriter.cpp:312-316 | After a successful call nothing is pending: every frame was forced. |
| `CrashSafety.CrashSafe` | implementations/cpp/src/streamingwriter.cpp:294-318 | Over any calls, any write or force failure and any crash that keeps the durable bytes and some prefix of the rest, the surviving section loads without error, and every channel holds exactly the values, timestamps and segments of the successful calls, in order, followed by at most those of the first few frames of the one failing call. |
| `SignatureIndex.CrashSafeExactly` | implementations/cpp/src/manager.cpp:691-714 | Channel index 0xFFFE is the exact exception: a crashed file is recovered if and only if no successful call was one on that index. |
| `CrashSafety.RunOutcome` | implementations/cpp/src/streamingwriter.cpp:542-677 | At every point of a run the disk holds exactly the frames of the successful calls, in order, and perhaps a cut of one more call's frames. |
| `CrashSafety.AdmittedCallApplies` | implementations/cpp/src/streamingwriter.cpp:339-406 | A call the writer's locks admit never upsets the reader's builder: the locks and the builder states stay coupled. |
| `BlockSpec.AddKeepsValid` | implementations/cpp/src/blockwriter.cpp:273-511 | Accumulation keeps each channel's data valid and its kind and datatype locked; refusals change nothing. |
| `BlockSpec.EmittedFolds` | implementations/cpp/src/blockwriter.cpp:551-650 | The emitted blocks of a channel fold to exactly the accumulated segments, pairs, strings and binaries. |
| `BlockRoundTrip.AutobumpExact` | implementations/cpp/src/blockwriter.cpp:518-531 | If the samples fit a four-byte field, emission hits the capacity error if and only if CRCs are on, the declared width is two and the largest sample has 65523 to 65526 bytes. |
| `BlockRoundTrip.WriteLoadRoundTrip` | implementations/cpp/src/blockwriter.cpp:551-650 | For every valid writer whose write succeeds, with or without CRCs, for both widths: loading gives one channel per declared channel with exactly what was accumulated, if and only if there are fewer than 0xFFFF channels or nothing was added to the one with index 0xFFFE. |
| `BlockRoundTrip.LastChannelLosesSample` | implementations/cpp/src/blockwriter.cpp:226-260 | A witness reached through the public calls: 65535 accepted channels, one accepted sample on the last, a successful write, and the sample is not in what loading returns. |
| `BlockRoundTrip.ReachableWriterValid` | implementations/cpp/src/blockwriter.cpp:226-511 | Every writer reachable through the public calls, in whatever order channels are defined and samples added, satisfies the premise of the round trip. |
| `BlockWriters.BlockWriter.AddEquidistantSegment` | implementations/cpp/src/blockwriter.cpp:273-327 | The accumulator grows as Add says; all checks in the order of the code. |
| `BlockWriters.BlockWriter.AddTimestampedSamples` | implementations/cpp/src/blockwriter.cpp:331-367 | As above for numeric and GPS samples; that earlier samples stay in front is WriterExactly. |
| `BlockWriters.BlockWriter.AddVariableSamples` | implementations/cpp/src/blockwriter.cpp:428-509 | As above for strings and binaries. |
| `BlockCalls.AnswersExactly` | implementations/cpp/src/blockwriter.cpp:226-509 | Told from the earlier calls alone: which definitions and which additions are accepted (data, positive finite rate, declared index, no earlier accepted addition of another kind on the channel, the declared datatype), and the error of each refusal. |
| `BlockCalls.WriterExactly` | implementations/cpp/src/blockwriter.cpp:273-509 | After any calls on a new writer each channel holds exactly the concatenation, in order, of the segments, or of the timestamps and values, of the accepted additions on it. |
| `BlockWriters.BlockWriter.AutobumpSizeOfLengthValue` | implementations/cpp/src/blockwriter.cpp:518-531 | The loop widens exactly the fields the rule says. |
| `BlockWriters.EmitChannel` | implementations/cpp/src/blockwriter.cpp:551-650 | The chunk loops append exactly the encoded blocks of the channel, or report the first sample beyond capacity. |
| `BlockWriters.BlockWriter.WriteTo` | implementations/cpp/src/blockwriter.cpp:654-716 | Succeeds exactly when the writer has channels, is not asked to sign and no sample is beyond capacity; the output is header line, metablock and the data section of the round trip, whatever the number of channels. |
| `BlockCalls.WriteExactly` | implementations/cpp/src/blockwriter.cpp:518-716 | Told from the calls: writing is refused exactly without channels, with signing, or if some accepted string or binary exceeds its channel's frames; a length field is widened exactly for a sample beyond 65526 bytes. |
| `BlockCalls.BlockCallsLoad` | implementations/cpp/src/blockwriter.cpp:551-716 | From calls to loaded channels, with no accumulator in the statement: whenever there is something to write and it fits, the section loads to one channel per definition taken with exactly the samples of its accepted additions, if and only if none is on index 0xFFFE. |
| `BlockCalls.BlockCallsFileOpens` | implementations/cpp/src/blockwriter.cpp:654-716 | The same of the whole file. |
| `Copy.CopyPreserves` | implementations/cpp/src/blockwriter.cpp:756-863 | Whenever a copy is accepted and written, loading it gives, channel by channel, the same samples, timestamps and non-empty segments, if and only if the source has fewer than 0xFFFF channels or none of its values on index 0xFFFE. |
| `LoadedTyped.ReloadedCopy` | implementations/cpp/src/blockwriter.cpp:842-863 | The same from the bytes of any loadable file, OSF4 included. |
| `Copy.CopyExactly` | implementations/cpp/src/blockwriter.cpp:756-863 | A copy is accepted if and only if there are at most 65535 channels of supported shape, width and datatype, every non-empty segment is of a float type with a positive finite rate, and no byte-array channel has samples. |
| `CopyManager.CopyDcData` | implementations/cpp/src/blockwriter.cpp:756-836 | Replaying one loaded channel accumulates what CopyChannel says. |
| `CopyManager.FromDataManager` | implementations/cpp/src/blockwriter.cpp:842-863 | The loop over channels builds the writer of FromManager or reports its first error. |
| `GuardSpec.BoundedStaleness` | implementations/cpp/src/stalevalueguard.cpp:42-55 | With a positive interval, ascending timestamps and successful polls at most gap apart, and whatever happens to other channels, consecutive samples of a channel that stays guarded are less than interval + gap apart, every synthetic sample repeats the value before it, and after a poll the newest sample is younger than the interval. |
| `GuardSpec.PollPerChannel` | implementations/cpp/src/stalevalueguard.cpp:42-55 | A successful poll repeats exactly the stale channels, once each, and leaves the others alone. |
| `GuardSpec.PollCounts` | implementations/cpp/src/stalevalueguard.cpp:42-55 | A successful poll returns the number of samples it wrote. |
| `GuardSpec.PollsFailOnlyOnDisk` | implementations/cpp/src/stalevalueguard.cpp:57-72 | After any such run from an empty cache, a poll over a streaming writer never fails for a type or kind reason, only by the disk breaking the writer. |
| `GuardedFile.GuardedChannelOnDisk` | implementations/cpp/src/stalevalueguard.cpp:42-72 | For every run, disk failure and crash, the surviving file loads, and a channel written only through the guard holds the samples of the guard's trace, repeats included, in order, and behind them at most the first samples of one failed write. |
| `GuardedFile.StalenessOnDisk` | implementations/cpp/src/stalevalueguard.cpp:42-55 | Hence the bound of BoundedStaleness is one on the stored timestamps: up to the last poll, consecutive stored samples are less than interval + gap apart, and each invented one repeats the value stored before it. |
| `GuardSpec.RunKeepsSound` | implementations/cpp/include/osf/stalevalueguard.h:167-189 | Over any run of guarded writes, polls, writes past the guard, forgets and clears, the cached type of every tracked channel equals the writer's lock. |
| `StaleValueGuards.StaleValueGuard.WriteTimestampedSamples` | implementations/cpp/include/osf/stalevalueguard.h:178-189 | Forwards, and on success caches the last sample of the batch. |
| `StaleValueGuards.StaleValueGuard.PollAt` | implementations/cpp/src/stalevalueguard.cpp:42-72 | The sweep in ascending channel order: state, count and first error as Poll says. |
| `GuardSpec.ForgottenNotRepeated` | implementations/cpp/src/stalevalueguard.cpp:78-84 | After forget or clear, over any further polls, writes to other channels and writes past the guard, nothing is repeated on the channel until it is written through the guard again. |
| `Header.MagicRoundTrip` | implementations/cpp/src/streamingwriter.cpp:227-236 | For every u64 length and optional u32 CRC the printed line parses back to the same version, length and CRC, with the stream on the first metablock byte. |
| `Header.AcceptedLine` | implementations/cpp/src/header.cpp:101-210 | Every accepted line declares an integrity level if and only if it declares a metablock CRC, if and only if it has tokens; tokens occur only in OSF5 and every one is understood. |
| `HeaderGrammar.LineExactly` | implementations/cpp/src/header.cpp:101-210 | The parser accepts exactly the lines of the grammar (identifier, one space, decimal length with any leading zeros, and in OSF5 CRC and key-id tokens, each behind one space, a key id only behind a CRC), and reads from each what it spells. |
| `Header.Osf4LineReadsBack` | implementations/cpp/src/header.cpp:59-71 | Each of the three OSF4 identifiers with a length parses to OSF4 with no integrity level. |
| `Header.SignedTokens` | implementations/cpp/src/header.cpp:188-202 | A key id is accepted behind the CRC token, which is kept, and refused without or before it. |
| `Header.ReadFirstLine` | implementations/cpp/src/header.cpp:24-57 | The line up to the newline without a final carriage return, within 128 bytes, or the error. |
| `HeaderGrammar.FirstLineExactly` | implementations/cpp/src/header.cpp:24-57 | The first line is what stands before the first newline, if that comes within 128 bytes. |
| `HeaderGrammar.HeaderExactly` | implementations/cpp/src/header.cpp:24-220 | A file has an accepted header if and only if a line of the grammar, with or without a carriage return behind it, ends in a newline within 128 bytes; the stream is left behind that newline. |
| `Header.ParseMagicHeaderLine` | implementations/cpp/src/header.cpp:101-210 | The split loop and the token loop compute the declarative line parser. |
| `Header.ParseMagicHeader` | implementations/cpp/src/header.cpp:214-220 | Both together, leaving the stream behind the line. |
| `Metablock.BodyBurstDetected` | implementations/rust/osf-core/src/integrity.rs:70-81 | Damage to at most four consecutive bytes of a metablock of any length never passes the CRC check. |
| `WholeFile.LoadFromStream` | implementations/cpp/src/manager.cpp:587-738 | Header, metablock check, reader and builders over a stream give the result of OpenFile. |
| `WholeFile.BlockFileOpens` | implementations/cpp/src/blockwriter.cpp:654-716 | A block writer's file opens to exactly the accumulated channels, if and only if no sample sits on index 0xFFFE. |
| `WholeFile.MetablockDamageRefused` | implementations/cpp/src/manager.cpp:617-628 | With CRCs on, a damaged metablock is refused before anything is parsed. |
| `WholeFile.StartSucceeds` | implementations/cpp/src/streamingwriter.cpp:184-267 | A successful start leaves header and metablock durable and the writer in the state crash safety starts from. |
| `WholeFile.AddChannelsConfigure` | implementations/cpp/src/streamingwriter.cpp:147-180 | After any list of definitions, accepted or refused, the writer is as start expects it. |
| `StreamedFile.DefinitionTaken` | implementations/cpp/src/streamingwriter.cpp:147-180 | A definition is taken if and only if its length field has two or four bytes, datatype and shape are supported and there are fewer than 65535 channels; it gets the next index, and a refusal changes nothing. |
| `StreamedFile.StartExactly` | implementations/cpp/src/streamingwriter.cpp:184-267 | Starting succeeds if and only if a definition was taken, no signature is asked for and the three disk operations succeed; otherwise nothing is left in the file. |
| `StreamedFile.OutOfPhase` | implementations/cpp/src/streamingwriter.cpp:147-337 | Out of its phase every operation is refused and changes nothing; after a disk failure it returns the first error. |
| `StreamedFile.StreamedFileOpens` | implementations/cpp/src/streamingwriter.cpp:184-316 | From definitions and calls to the file, with no writer state in the statement: on a disk that does not fail the file opens to one channel per definition taken, each with exactly the samples of its accepted calls, if and only if none of these is on index 0xFFFE. |
| `WholeFile.CrashedFileOpens` | implementations/cpp/src/streamingwriter.cpp:184-318 | The file found after any definitions, any run and any crash opens without error, each channel holding exactly the samples of the successful calls plus at most those of the first frames of the failing one, if and only if no successful call was one on index 0xFFFE. |
| `MessageEvent.TwoEncodingsOneMeaning` | implementations/rust/osf-core/examples/gen_message_event_refs.rs:236-264 | For every list of rows the channel-major message-event section and the round-robin zero-terminated section both load, to the same channels with every counter and text, empty texts and texts ending in zero bytes included. |
| `MessageEvent.BuildMessageEventSection` | implementations/rust/osf-core/examples/gen_message_event_refs.rs:236-247 | The loops lay out all counters, then all message events. |
| `MessageEvent.BuildEquivalentSection` | implementations/rust/osf-core/examples/gen_message_event_refs.rs:257-264 | The loop lays out counter and zero-terminated string in turn. |

## Left out

- JSON and XML metablocks: library-driven field plumbing; the body is an opaque byte string with a length and a CRC.
- Compressed files (gzip, zlib): decompression lives in libraries.
- DurableFile system calls, opening files, errors on closing: replaced by the scripted append-only disk.
- Stream errors of the reader and of the block writer other than end of data: reported as they come by the original, not modelled.
- Rounding of sample offsets in floating point, and the C++ segmentLastTimestamp, whose operation order differs from segmentTimestamp.
- Timestamp ranges in the reader statistics, which rest on the same floating-point span.
- Wall-clock fields, error message texts, logging, file sizes in statistics, overflow of 64-bit counters.
- Builder: follows the saturating timestamp arithmetic of the Rust manager; the C++ additions (manager.cpp:162-175, datachannel.cpp:93-101) do not saturate.
- Rust rejection of string payloads that are not valid UTF-8: the C++ reader keeps the bytes.
- Channel names, units and other descriptive fields, and look-up by name.
- StreamingSpec: numeric and GPS calls are one operation over datatypes; the templates are its instances.
- MessageEvent.TwoEncodingsOneMeaning: asks for texts whose block length fits 32 bits, as the generator's arithmetic does.
- StaleValueGuards.StaleValueGuard.PollAt: time differences are over unbounded integers, not int64.
- Signature verification: signature blocks are only skipped and counted.
- C and Python bindings, the Java and Delphi stubs, examples other than the message-event generator.
- Typed flat accessors and iterator adapters: type dispatch over the same vectors.
- SignatureIndex.CrashSafeExactly: leaves out runs whose disk failure hit a call to index 0xFFFE with CRCs on and a two-byte length field, unless that call's frames, read as a signature, have no end; what a reader makes of the rest then depends on the sample bytes.
- WholeFile.CrashedFileOpens: leaves out the same runs.
- CrashSafety.CrashSafe: one direction, for runs that put nothing on index 0xFFFE; SignatureIndex.CrashSafeExactly has both.
- GuardedFile.GuardedChannelOnDisk: for runs that put nothing on index 0xFFFE.
- GuardSpec.BoundedStaleness: time differences are over unbounded integers, so nothing is said of int64 overflow.
- Stream.ByteStream.ReadN: the third outcome, a device error before the end of the data, is not modelled.
- Reader.BlockReader.constructor: the counters of total and unsupported channels are not part of the statistics.
- Reader.BlockReader.DeliverPayload: timestamp ranges are not part of the statistics; payload lengths stay below 2^32, as the length field guarantees.
- Reader.BlockReader.Next: device errors and timestamp ranges are not modelled.
- StreamingWriters.StreamingWriter.StartFile: header line and metablock are arguments, and the file is already open.
- StreamingWriters.StreamingWriter.CloseFile: an error of closing the file itself is not modelled.
- CopyManager.FromDataManager: file-information fields are not copied.
- StreamingCalls.AcceptanceExactly: speaks of calls made before a disk failure; from then on every call returns the first error, which is Lifecycle.BrokenForGood.
- DataChannels.SampleTimes: saturates at the ends of an i64 as the Rust reader does; the C++ addition does not.
- BlockMeaning.LoadExactly: tells whether loading succeeds, not which of several errors is returned.
- Copy.CopyExactly: tells whether a copy is accepted, not the error of a refusal.
