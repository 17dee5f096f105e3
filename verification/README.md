# A verified model of the zmux wire codec

`tools/zmuxwire` is the executable reference of the zmux wire format: QUIC variable-length
integers, about two dozen frame kinds, the transport-parameter block, Size-prefixed records and
whole messages, the classifier of a connection's first bytes, the stream preamble and the token of
a PIPE_JOIN. Three more pieces have to agree with it: the annotator that writes the byte tables of
the documentation, the JSON form of frames, and the trace builder that counts bytes for the peer.
This project models that code and proves what a reader of one function cannot see.

The decoder, the encoder, the annotator, the preamble parser and the trace builder are written
here as they are in Python: methods with a moving position, a growing buffer, or fields that are
updated. Each is proved against a functional specification, and the theorems are about the
specification. `None` and `Err(code)` stand for the exceptions; the reason text is not modelled.

| file | models |
|---|---|
| `Base`, `Varint` | bytes, results, "no longer, and equal when as long"; section 16 of RFC 9000 |
| `Fields` | the grammar of frame bodies: lists of fields, parsed and printed generically |
| `Registry` | frame types, gates, transport-parameter ids and formats, limits |
| `TransportParameters`, `TpOrder` | values, blocks, dependency rules; order independence |
| `Frames`, `Canonical`, `Minimal`, `Normal` | one frame; lists of frames; canonical, minimal and normal forms; gates |
| `Layout`, `Acceptance`, `BlockRules` | the wire in literal bytes and numbers: every frame's bytes, which frames and blocks are accepted, and which feature admits which frame |
| `Encoder`; `BlockDecoder`, `BodyReader`, `PipeDecoder`, `Decoder` | the imperative codec, branch by branch |
| `Records` | records, streams, chunks, messages |
| `Classifier` | the incremental first-record check |
| `Annotate` | the second serializer |
| `Preamble`, `Joins` | the stream preamble; join tokens and their MAC input |
| `Trees`, `Dicts`, `DictForms` | frames as dicts, their JSON form, and reading dicts back |
| `Placeholders`, `BlurredDicts`, `BlurredLengths`, `PlaceholderLengths`, `Runner`, `Traces` | placeholders, what the runner writes for them, and the byte accounting of traces |

## Main results

1. **Canonicalisation.** Whatever bytes decode, the frames encode again, to bytes which decode to the
   same frames: the same bytes if and only if every varint in them was minimal, strictly fewer
   otherwise. The same holds of records, and of the records read from a stream.
2. **Inversion.** A receiver gets back the normal form of what was sent (flag bits explicit, REPEAT
   expanded, PADDING runs merged) if and only if the expanded frames are acceptable to it; for
   records, for streams of records, and before any tail.
3. **Classification is exact.** Verdicts are final; a positive one fixes the first frame; reject
   means that no extension is acceptable. With a complete Size an undecided prefix can still become
   acceptable if and only if some kind of first record is open after it and negotiated, so always
   when the kinds that the policy accepts are negotiated.
4. **Chunk independence.** Any split of a byte stream gives the same records, tail or error.
5. **Two serializers agree** on every frame but REPEAT, which the annotator refuses, with one exact
   exception.
6. **Gates only filter**: they never change what a payload decodes to, only whether it does.
7. **Containment**: decoding at a position is decoding of the slice, and moves within it.
8. **Preambles** are parsed exactly, and independently of the data behind them.
9. **Parameter order** never matters to acceptance or to the values.
10. **Framing equivalence**: messages and Size-prefixed records carry the same.
11. **Join tokens**: the input is unambiguous, and a sealed join is accepted from any encoding.
12. **Tight sizes** of the first frames of a connection.
13. **Trace accounting** balances over all calls. Where placeholders stand in positions of PIPE_ACKs,
    as TRACES.md section 6.1 wants, the count under a pipe or carrier is what the runner delivers,
    for all values below 2^30, and the receiver reads the frames with the values filled in. Where
    placeholders may stand anywhere, it is what the runner delivers, for all values from 2^14 to
    2^30 - 1, if and only if no step counted there has a placeholder for a count that matters.
14. **JSON** loses nothing, and the bytes after it are the same.
15. **The wire in numbers.** What the codec writes and accepts, said without its own tables: the bytes
    of every frame, exactly which frames and parameter blocks are accepted, which feature admits
    which frame and how it is refused without, what each preamble TLV comes to, and what a join
    token is computed from. Under every hash alike only the same role, join and carrier binding
    give the same token.

## Where the code and its description differ

The code is followed in each case.

- `tools/zmuxwire/frames.py:4` says that every decode result re-encodes to the identical bytes. It
  does if and only if every varint of the input is minimal (`Minimal.IdenticalWhenMinimal`); the
  payload 10 40 05 fails (`Minimal.WideMaxData`). Otherwise the result is strictly shorter and means
  the same, which is the form in which `tools/validate_assets.py:303-316` checks it.
- The annotator writes the Locator Length of a PIPE_JOIN as a varint, the encoder as one byte. They
  agree if and only if the locator has fewer than 64 bytes (`Annotate.FrameFields`), and
  `Annotate.AnnotateLongJoin` shows a join that has more; the decoder accepts at most 16.
- The 64-byte check on a PIPE_JOIN never fires: no accepted one is longer than 62 bytes
  (`Classifier.JoinAtMost62`).
- The classifier says need-more while the Size is incomplete even if no acceptable record can
  follow; `Classifier.IncompleteSize` says exactly when one can, and after the byte FF none can
  (`Classifier.HopelessNeedsMore`).
- `decode_frame` called with `pos` at or past `end` still takes one zero byte as PADDING, and the type
  of a DATAGRAM without Length, whose data is then empty and whose end lies before its type. It
  refuses everything else there (`Decoder.DecodeFrame`). The callers of the repository reach this
  only with an empty buffer, which is refused.
- A trace step whose records hold a placeholder, sent on a carrier with a PIPE_JOIN first, is
  charged to the pipe it joins, while the same join without a placeholder is charged to the
  carrier (`tools/zmuxwire/tracedsl.py:369-374` and `406-414`). `Traces.ChargedWhereNamed` and
  `Traces.BalancedWhereNamed` show that this is the only such case, `Traces.JoinOnACarrier` gives one.
- `placeholder_record_len` accepts placeholders anywhere, and for the values that take four bytes by
  themselves, 2^14 to 2^30 - 1, it is right if and only if no placeholder counts PADDING bytes, or
  repetitions of a frame that takes any (`PlaceholderLengths.RightWithoutLiveCounts`;
  `Traces.RightWithoutLiveSteps` for a trace). TRACES.md section 6.1 puts placeholders in PIPE_ACK
  positions and writes them in four bytes, where it is right for all values below 2^30
  (`Runner.LengthBeforeResolving`; `Traces.CountedBeforeRunning` for a trace).

## Model

| member | source | states |
|---|---|---|
| `Varint.EncodeVarint` | tools/zmuxwire/varint.py:31-40 | raises exactly for values and widths that do not fit; the bytes read back as the value, and are the fewest when no width is forced |
| `Varint.DecodeVarint` | tools/zmuxwire/varint.py:43-55 | fails exactly when the buffer ends inside the encoding; otherwise value, width and new position are those of the encoding |
| `Varint.DecodeWidth` | tools/zmuxwire/varint.py:31-55 | every width of encoding reads back, whatever bytes follow |
| `Varint.DecodeIsEncode` | tools/zmuxwire/varint.py:31-55 | accepted bytes are the encoding of their value in their own width, and the minimal encoding is no longer |
| `Varint.DecodePrefix` | tools/zmuxwire/varint.py:43-55 | a varint depends on its own bytes alone: a cut before its end makes it incomplete, any other cut changes nothing |
| `Varint.VarintLayout` | tools/zmuxwire/varint.py:31-40 | the bytes of a varint in each width: the length bits and the number, most significant byte first |
| `Registry.KindCodes` | tools/zmuxwire/registry.py:56-136 | a type code is looked up as a kind exactly when it lies between the literal first and last code of its row, so lookups never overlap |
| `Registry.TpTable` | tools/zmuxwire/registry.py:139-205 | registered parameter names and ids correspond one to one, and no registered id is prohibited |
| `Fields.ParsePrint` | tools/zmuxwire/frames.py:225-300 | for every list of fields, printing and parsing again gives the fields and stops where they end |
| `Fields.ParseShrinks` | tools/zmuxwire/frames.py:366-374 | for every list of fields, what parses has that shape and prints to a canonical form of the bytes read |
| `TransportParameters.ValueRoundTrip` | tools/zmuxwire/frames.py:62-155 | a well-formed parameter value of any format decodes from its encoding |
| `TransportParameters.ValueShrinks` | tools/zmuxwire/frames.py:108-155 | an accepted raw value keeps its id and encodes to a canonical form of itself |
| `TransportParameters.TpsRoundTrip` | tools/zmuxwire/frames.py:94-219 | a well-formed parameter list decodes from its block |
| `TransportParameters.TpsShrink` | tools/zmuxwire/frames.py:158-219 | an accepted block gives a well-formed list whose own block is a canonical form of it |
| `TpOrder.OrderIndependence` | tools/zmuxwire/frames.py:158-219 | permuted entries are accepted alike and give the same name-to-value map |
| `TpOrder.Accepted` | tools/zmuxwire/frames.py:158-219 | accepted exactly when whole, with distinct ids, none prohibited, every value decodable, and all dependency rules met |
| `TpOrder.DictHolds` | tools/zmuxwire/frames.py:181-186 | with distinct ids the dictionary holds exactly the named parameters of the list |
| `Frames.KindTable` | tools/zmuxwire/frames.py:38-56 | the type code of a frame, flag bits included, is one that the registry gives back as its kind |
| `Frames.BuildOwnFields` | tools/zmuxwire/frames.py:376-515 | the fields of a well-formed frame have the shape its type announces and make the frame again |
| `Frames.IncreasingIsOrdered` | tools/zmuxwire/frames.py:487-498 | comparing each entry with the one before it orders them all: any earlier entry is less by (pipe, lane) than any later one, and conversely |
| `Frames.BuildShrinks` | tools/zmuxwire/frames.py:376-515 | a frame made from parsed fields is well formed, has the type it was read under, and prints to a canonical form |
| `Layout.BlockBytesLayout` | tools/zmuxwire/frames.py:62-105 | a parameter block in literal ids and value forms |
| `Layout.WireLayout` | tools/zmuxwire/frames.py:225-326 | encode_frame of every kind in literal type bytes and field order, flag bits, defaults and REPEAT included |
| `Acceptance.EncodableExactly` | tools/zmuxwire/frames.py:225-320 | the frames that can be encoded, by literal bounds on each field |
| `Acceptance.DecodableExactly` | tools/zmuxwire/frames.py:334-523 | the frames that some bytes decode to, by literal bounds on each field, and no others |
| `Acceptance.RefusedTypes` | tools/zmuxwire/frames.py:343-357 | a truncated type, one not in the fewest bytes, or one outside the literal list of types is refused, each with its code |
| `Acceptance.DecodedUnderFeatures` | tools/zmuxwire/frames.py:358-363 | which negotiated feature admits which frame, kind by kind, and the code of the refusal otherwise |
| `Acceptance.RefusedWithoutFeature` | tools/zmuxwire/frames.py:358-363 | a type without its feature is refused before its body is read, whatever that holds |
| `Acceptance.DecodedUnderLimit` | tools/zmuxwire/frames.py:520-522 | the limit refuses exactly the DATAGRAM frames longer than it |
| `Acceptance.SentComesBack` | tools/zmuxwire/frames.py:225-523 | every encodable frame within literal bounds is read, before any tail, as the frame with its flags said and what its bytes leave out forgotten |
| `Acceptance.RecordLayout` | tools/zmuxwire/frames.py:538-546 | a record is the length of its message and the bytes of its frames in order |
| `BlockRules.AcceptedByNumber` | tools/zmuxwire/frames.py:108-219 | a block is accepted exactly when it is whole, its ids are distinct, each value has the form of its literal id, none is prohibited, and the rules between ids and values hold; every refusal has one code |
| `BlockRules.ForbiddenRefused` | tools/zmuxwire/registry.py:139-205 | an entry with one of the literal prohibited ids refuses the block |
| `BlockRules.DecodedByNumber` | tools/zmuxwire/frames.py:108-155 | each entry of an accepted block comes back named and with its value when its literal id is registered, with its raw value otherwise |
| `Canonical.FrameRoundTrip` | tools/zmuxwire/frames.py:334-523 | a well-formed frame that passes gates and limit decodes from its bytes before any tail it can stand before |
| `Canonical.FrameShrinks` | tools/zmuxwire/frames.py:334-523 | a decoded frame is well formed, passed gates and limit, and encodes to a canonical form of the bytes it took |
| `Canonical.ListRoundTrip` | tools/zmuxwire/frames.py:526-546 | a list that can be returned decodes from its encoding as itself |
| `Canonical.ListShrinks` | tools/zmuxwire/frames.py:526-532 | a decoded list has no two PADDING frames in a row, only its last frame without Length, and encodes to a canonical form |
| `Canonical.Canonicalisation` | tools/validate_assets.py:303-316 | for all bytes, gates and limits: what decodes encodes, to no more bytes, and decodes to the same frames again |
| `Canonical.AcceptedAcks` | tools/zmuxwire/frames.py:487-498 | where PIPE_ACK is negotiated, some bytes decode to one with these entries exactly when they are in range, not empty, and ordered by (pipe, lane) pairwise |
| `Canonical.OnePositionPerLane` | tools/zmuxwire/frames.py:487-498 | a decoded PIPE_ACK has at most one entry, so one position, for a pipe and lane |
| `Minimal.FieldsWidth` | tools/zmuxwire/frames.py:366-374 | for every list of fields, printing what was parsed takes as many bytes exactly when every varint read was minimal |
| `Minimal.BlockWidth` | tools/zmuxwire/frames.py:158-178 | a parameter block keeps its length exactly when its ids, lengths and value varints are minimal |
| `Minimal.DecodedWidth` | tools/zmuxwire/frames.py:334-523 | a decoded frame takes its extent, and encodes to as many bytes exactly when every varint in it is minimal |
| `Minimal.IdenticalWhenMinimal` | tools/validate_assets.py:303-316 | decoded frames encode to the identical payload if and only if every varint of the payload is minimal, and to strictly fewer bytes otherwise |
| `Minimal.WideMaxData` | tools/zmuxwire/frames.py:4 | MAX_DATA 5 with a two-byte maximum decodes, and encodes to other bytes |
| `Canonical.Image` | tools/zmuxwire/frames.py:526-532 | the lists some payload decodes to are exactly the returnable ones |
| `Canonical.FrameGates` | tools/zmuxwire/frames.py:353-363 | a frame decodes under gates exactly when it decodes without and its kind is negotiated |
| `Canonical.GatesOnlyFilter` | tools/zmuxwire/frames.py:353-363 | a payload decodes under gates exactly when it does with all enabled and each frame is ungated or has a gate enabled, and to the same frames |
| `Canonical.MoreGates` | tools/zmuxwire/frames.py:353-363 | enabling more features never changes a successful decode |
| `Normal.NormalWire` | tools/zmuxwire/frames.py:225-300 | a list and its normal form have the same bytes |
| `Normal.MergeReturnable` | tools/zmuxwire/frames.py:347-352 | merging PADDING runs makes a list returnable exactly when its frames could be sent one by one |
| `Normal.DecodeInvertsEncode` | tools/zmuxwire/frames.py:526-546 | sent frames come back in normal form if and only if, expanded, they are well formed, pass the receiver's gates and limit, and only the last has no Length |
| `Normal.ReturnableIsNormal` | tools/zmuxwire/frames.py:526-532 | decoded lists are their own normal form |
| `Encoder.EncodeTpValue` | tools/zmuxwire/frames.py:62-91 | raises exactly for values outside the parameter's format, otherwise writes its bytes |
| `Encoder.EncodeTps` | tools/zmuxwire/frames.py:94-105 | raises exactly when a parameter cannot be encoded, otherwise writes the block |
| `Encoder.EncodeJoinBody` | tools/zmuxwire/frames.py:310-320 | writes the join's fields in order, or raises exactly when one is out of range |
| `Encoder.EncodeEntries` | tools/zmuxwire/frames.py:283-286 | the entry loop of PIPE_ACK writes all entries in order |
| `Encoder.EncodeFrame` | tools/zmuxwire/frames.py:225-300 | raises exactly for frames that are not encodable; otherwise the bytes are the minimal type and the printed fields, REPEAT and PADDING included |
| `Encoder.EncodeFrames` | tools/zmuxwire/frames.py:543-546 | raises exactly when one frame does; otherwise the concatenation |
| `BlockDecoder.ValidateTps` | tools/zmuxwire/frames.py:189-219 | the chain of checks accepts exactly the dictionaries that meet every rule, with one error code |
| `BlockDecoder.DecodeTps` | tools/zmuxwire/frames.py:158-178 | the loop with `seen` and `out` computes the specified block result, errors included |
| `BodyReader.ReadVarint` | tools/zmuxwire/frames.py:366-374 | the nested reader never accepts a varint that runs past `end`, although the buffer goes on |
| `Decoder.DecodeStreamBody` | tools/zmuxwire/frames.py:377-393 | STREAM: flag bits, optional offset and length, rest of record, 2^62-1 bound |
| `Decoder.DecodeClose` | tools/zmuxwire/frames.py:420-428 | CONNECTION_CLOSE: frame type only in the transport form |
| `PipeDecoder.DecodePriority` | tools/zmuxwire/frames.py:450-458 | PRIORITY_UPDATE: reserved bits refused, urgency and flag unpacked |
| `PipeDecoder.DecodeJoin` | tools/zmuxwire/frames.py:459-486 | PIPE_JOIN: locator, flags and token checks in their order, with the outcome of the specification |
| `PipeDecoder.ReadEntries` | tools/zmuxwire/frames.py:487-498 | accepted entries are ordered pairwise by (pipe, lane), and are those of the specification; for any claimed count the loop makes at most (end - pos) / 4 rounds |
| `PipeDecoder.DecodeAck` | tools/zmuxwire/frames.py:487-498 | PIPE_ACK: accepts exactly non-empty, strictly increasing entry lists |
| `PipeDecoder.DecodeLane` | tools/zmuxwire/frames.py:499-504 | PIPE_LANE: a 16-byte key and two varints |
| `Decoder.DecodeStatus` | tools/zmuxwire/frames.py:509-515 | PIPE_STATUS: refuses unknown states after reading the priority |
| `Decoder.DecodePadding` | tools/zmuxwire/frames.py:347-352 | the run of zero bytes up to `end`, no further |
| `Decoder.DecodeFrame` | tools/zmuxwire/frames.py:334-523 | succeeds on buf[pos:end] exactly when it does on the slice, with the same frame, ending in (pos, end]; the error code is that of the slice too unless the type runs over `end`. From pos >= end it succeeds on exactly a zero byte and the type of a length-less DATAGRAM that passes gates and limit |
| `Decoder.DecodeFrames` | tools/zmuxwire/frames.py:526-532 | computes the specified list or error code |
| `Records.EncodeRecord` | tools/zmuxwire/frames.py:538-540 | raises exactly when a frame cannot be encoded or the record is too long; otherwise Size and frames |
| `Records.DecodeRecord` | tools/zmuxwire/frames.py:549-567 | at any position: the record and where it ends, incomplete, or the error |
| `Records.RecordRoundTrip` | tools/zmuxwire/frames.py:538-567 | before any tail a sent record reads back in normal form and ends exactly before the tail, if and only if its size is accepted and its frames can be sent |
| `Records.DecodeStream` | tools/zmuxwire/frames.py:587-599 | computes the outcome of reading record after record, with and without `require_complete` |
| `Records.RecordPersists` | tools/zmuxwire/frames.py:549-567 | a record or an error on a prefix is there on every extension |
| `Records.DrainSplit` | tools/zmuxwire/frames.py:587-599 | reading a, keeping the tail and going on with b equals reading a + b: records, tail and error code |
| `Records.ChunkIndependence` | tools/zmuxwire/frames.py:587-599 | any split of the byte stream into chunks gives the same |
| `Records.StreamRoundTrip` | tools/zmuxwire/frames.py:538-599 | a sequence of encoded records before any tail reads back record by record in normal form, and then the tail is read, if and only if each of them is sendable |
| `Records.DecodeStreamInverts` | tools/zmuxwire/frames.py:538-599 | decode_stream of encoded records gives their normal forms if and only if each of them is sendable |
| `Records.RecordCanonical` | tools/validate_assets.py:323-326 | a decoded record encodes again to a canonical form of the bytes it was read from, the same bytes if and only if its Size and all varints in it are minimal, and that decodes to the same record before any tail |
| `Records.StreamCanonical` | tools/zmuxwire/frames.py:587-599 | the records of any stream encode to bytes that are read as the same records with nothing left: the bytes they were read from if and only if each record was minimal, and strictly fewer otherwise |
| `Records.MessageIsRecord` | tools/zmuxwire/frames.py:570-584 | a non-empty message decodes as the record that its Size makes of it, with the same error code and the length message_position says |
| `Records.FramingEquivalence` | tools/zmuxwire/frames.py:570-599 | the Size-prefixed stream of non-empty messages decodes to what the messages decode to, up to the same first error |
| `Records.EmptyMessage` | tools/zmuxwire/frames.py:570-579 | the empty message is the one exception: no frames as a message, an error as a record |
| `Records.RecordPositions` | tools/zmuxwire/frames.py:582-584 | the i-th record of the stream lies between the sums of the first i and i + 1 positions |
| `Classifier.ClassifyIsJudge` | tools/zmuxwire/frames.py:610-641 | the candidate lists amount to one test per kind, in the order session, join, lane |
| `Classifier.VerdictIsFinal` | tools/zmuxwire/frames.py:610-641 | once decided, every extension gets the same answer |
| `Classifier.PositiveVerdictIsSound` | tools/zmuxwire/frames.py:610-641 | after session, join or lane, the first record of any extension opens with that frame if it decodes at all |
| `Classifier.RejectIsSound` | tools/zmuxwire/frames.py:610-641 | after reject, no extension has an acceptable first record |
| `Classifier.LiveUnderGates` | tools/zmuxwire/frames.py:610-641 | under any gates, a prefix with a complete Size and no positive verdict has an extension with an acceptable first record exactly when a kind of first record is open after it and negotiated |
| `Classifier.NeedMoreIsLive` | tools/zmuxwire/frames.py:610-641 | if the joins and lanes that the policy accepts are negotiated, an undecided prefix with a complete Size has an extension with an acceptable first record |
| `Classifier.ClassifierIsExact` | tools/zmuxwire/frames.py:610-641 | for such a receiver, with a complete Size and no positive verdict, reject means exactly that no extension is acceptable |
| `Classifier.IncompleteSize` | tools/zmuxwire/frames.py:622-625 | with an incomplete Size the answer is need-more; an acceptable extension exists, under any gates, exactly when some completion of the Size lies between the smallest record and the limit |
| `Classifier.HopelessNeedsMore` | tools/zmuxwire/frames.py:622-625 | after the byte FF the answer is need-more, and no extension is acceptable to a receiver with a limit of 65535 |
| `Classifier.FirstFrameMinima` | tools/zmuxwire/frames.py:605-607 | no accepted frame of the three kinds is shorter than its minimum |
| `Classifier.JoinAtMost62` | tools/zmuxwire/frames.py:459-486 | every accepted PIPE_JOIN takes at most 62 bytes, whatever widths its varints have |
| `Classifier.BoundsAttained` | tools/zmuxwire/frames.py:605-607 | the minima 9, 26 and 22 and the maximum 62 are lengths of actual frames |
| `Annotate.ParamRows` | tools/zmuxwire/annotate.py:77-89 | the rows per parameter concatenate to the block, empty values included |
| `Annotate.JoinRows` | tools/zmuxwire/annotate.py:101-111 | the rows of a join, with the Locator Length as a varint |
| `Annotate.FrameFields` | tools/zmuxwire/annotate.py:16-132 | the byte column of every encodable frame but REPEAT is its encoding if and only if it is no join with a locator of 64 bytes or more |
| `Annotate.AnnotateLongJoin` | tools/zmuxwire/annotate.py:101-111 | a concrete join with a locator of 64 bytes is encodable, and its byte column is one byte longer than its encoding |
| `Annotate.RecordFields` | tools/zmuxwire/annotate.py:157-162 | the byte column of a record is its encoding if and only if no join in it has such a locator |
| `Preamble.DecodePreamble` | tools/zmuxwire/preamble.py:15-64 | the loop with `seen` and `parsed` accepts exactly the preambles whose known TLVs are unique and well formed, and returns what they mean |
| `Preamble.PreambleRoundTrip` | tools/zmuxwire/preamble.py:9-64 | an encoded preamble before any data is accepted exactly when within the limit and acceptable; application TLVs are the in-order subsequence with repeats, ignored types the rest, and the data plays no part |
| `Preamble.PreambleLayout` | tools/zmuxwire/preamble.py:9-12 | encode_preamble: the length of the TLVs, then type, length and value of each |
| `Preamble.GreaseTlv` | tools/zmuxwire/registry.py:340-345 | a type is a GREASE value exactly when it is 0x1F n + 0x21 for some n |
| `Preamble.MeaningByNumber` | tools/zmuxwire/preamble.py:36-63 | open info, priority and carrier mark come from types 1, 2 and 5; the application gets exactly the types 0x1000 to 0x3FFF that are no GREASE values; all others are ignored |
| `Preamble.PreambleByNumber` | tools/zmuxwire/preamble.py:15-64 | which preambles are accepted, and the same for an accepted one |
| `Preamble.PreambleCanonical` | tools/zmuxwire/preamble.py:9-64 | encoding the TLVs of an accepted preamble again gives no more bytes and the same meaning |
| `Joins.HkdfExpand` | tools/zmuxwire/crypto.py:16-24 | the loop gives the first bytes of the blocks of section 2.3 of RFC 5869, and raises exactly beyond 255 of them |
| `Joins.ExpansionsNest` | tools/zmuxwire/crypto.py:16-24 | a shorter expansion is a prefix of a longer one |
| `Joins.ExpansionIsChain` | tools/zmuxwire/crypto.py:16-24 | the blocks are the MACs of the block before, the info and the number, in that order |
| `Joins.ComputeJoinKey` | tools/zmuxwire/crypto.py:51-54 | the join key is one block under the joiner's label |
| `Joins.InputIsHead` | tools/zmuxwire/frames.py:323-326 | cutting 16 bytes off a join leaves exactly Type through Priority |
| `Joins.InputIsUnambiguous` | tools/zmuxwire/crypto.py:57-64 | equal MAC inputs come from equal joins, token aside, and equal carrier bindings |
| `Joins.SealedVerifies` | tools/zmuxwire/crypto.py:57-69 | a join verifies exactly with the token that join_token computes for it |
| `Joins.TokenSpelled` | tools/zmuxwire/crypto.py:50-64 | the token is the first 16 bytes of the MAC, under the key of the role's literal label, of the literal join bytes and the carrier binding |
| `Joins.TokenBindsAll` | tools/zmuxwire/crypto.py:57-69 | two tokens are the same under every hash exactly when role, join (token aside) and carrier binding are the same |
| `Joins.OthersTokenRefused` | tools/zmuxwire/crypto.py:57-69 | when one of them differs, some hash makes verify_join refuse the other's token |
| `Joins.WideDecodes` | tools/zmuxwire/frames.py:459-486 | every encoding of a join, with non-minimal field varints, decodes to the join |
| `Joins.DecodedIsWide` | tools/zmuxwire/frames.py:459-486 | whatever bytes decode to a join are one of those encodings |
| `Joins.SealedJoinSurvivesTheWire` | tools/zmuxwire/crypto.py:57-69 | a sealed join decodes from any of its encodings to a join that verifies |
| `Trees.HexRoundTrip` | tools/zmuxwire/frames.py:651-664 | the hexadecimal form of bytes reads back |
| `Trees.HexSpelled` | tools/zmuxwire/frames.py:651-664 | each byte is written as two lower-case digits |
| `Trees.FromHexSpelled` | tools/zmuxwire/frames.py:667-683 | exactly the texts of two digits of either case for each byte, with white space between bytes, are read, and as those bytes |
| `Trees.BytesKeys` | tools/zmuxwire/frames.py:647-683 | text comes back as bytes under the nine bytes keys and under no other |
| `Trees.ToJsonHasNoBytes` | tools/zmuxwire/frames.py:651-664 | what to_json makes holds no bytes |
| `Trees.MultipathSpelled` | tools/zmuxwire/frames.py:667-683 | in a multipath value the locator and a nonce that is text come back as bytes, or raise exactly when they are no hexadecimal text; everything else comes back as it is |
| `Trees.JsonRoundTrip` | tools/zmuxwire/frames.py:651-683 | every tree with bytes only under the bytes keys reads back from JSON, nested multipath values included |
| `Trees.FramesSurviveJson` | tools/zmuxwire/frames.py:647-683 | every list of frames the decoder can return reads back from JSON |
| `DictForms.DictReadsBack` | tools/zmuxwire/frames.py:376-515 | the dict that decode_frame fills in holds, under the keys encode_frame reads, the frame itself |
| `DictForms.AbsentKeys` | tools/zmuxwire/frames.py:225-307 | what dicts without their optional keys stand for |
| `DictForms.BytesWanted` | tools/zmuxwire/frames.py:29-35 | where bytes are wanted None counts as none, and an absent key does exactly where it is optional |
| `DictForms.FalsyValues` | tools/zmuxwire/frames.py:38-56 | flags are false exactly for Python's falsy values |
| `DictForms.RequiredKeys` | tools/zmuxwire/frames.py:225-320 | keys without which encode_frame raises |
| `DictForms.JsonEncodesAlike` | tools/validate_assets.py:310-316 | decoded frames that went through JSON encode to the same bytes |
| `Placeholders.StandInLeavesNone` | tools/zmuxwire/tracedsl.py:312-334 | after standing in, no placeholder is left |
| `Placeholders.StandInIdentity` | tools/zmuxwire/tracedsl.py:312-334 | a tree without placeholders stands for itself |
| `Placeholders.ResolvedIsBlurred` | tools/zmuxwire/tracedsl.py:322-334 | a resolved tree differs from the one with stand-ins only in integers that take four bytes |
| `BlurredDicts.FrameBlurred` | tools/zmuxwire/frames.py:225-300 | reading a dict commutes with identifying all four-byte integers in it, for every frame kind |
| `BlurredLengths.FrameAsLong` | tools/zmuxwire/frames.py:225-300 | such frames are encodable alike and, PADDING and REPEAT apart, equally long |
| `PlaceholderLengths.LengthWithoutResolving` | tools/zmuxwire/tracedsl.py:322-339 | for all values of the placeholders from 2^14 to 2^30 - 1, in any field, record_bytes succeeds exactly when placeholder_record_len does, and gives that length, unless a placeholder is a count that matters |
| `PlaceholderLengths.LiveCountsMatter` | tools/zmuxwire/tracedsl.py:322-339 | with such a count, some values in that range give another length |
| `PlaceholderLengths.RightWithoutLiveCounts` | tools/zmuxwire/tracedsl.py:322-339 | the length is right for all values from 2^14 to 2^30 - 1 if and only if there is no such count |
| `PlaceholderLengths.PaddingCountMatters` | tools/zmuxwire/tracedsl.py:322-339 | a concrete record whose length is announced as 0x4004 and becomes 0x4005 |
| `Runner.LengthBeforeResolving` | TRACES.md:392-406 | with placeholders in positions of PIPE_ACKs, for all values below 2^30 written in four bytes: placeholder_record_len is the length of what the runner writes, and raises exactly when the runner cannot write it |
| `Runner.WrittenInBand` | TRACES.md:392-406 | values that take four bytes anyway are written as record_bytes writes the resolved records |
| `Runner.MessageInverts` | TRACES.md:392-406 | the frames of the runner are read as the resolved frames in normal form if and only if those are sendable |
| `Runner.RecordsInvert` | TRACES.md:392-406 | the records of a step, before any tail, are read as the resolved records and then the tail, if and only if each is accepted |
| `Traces.Trace.constructor` | tools/zmuxwire/tracedsl.py:355-364 | an empty trace is balanced |
| `Traces.Trace.Add` | tools/zmuxwire/tracedsl.py:366-376 | records the step, charging its key exactly when the runner fills in its bytes; a balanced trace stays balanced when they are to be filled in or there are none; a failure changes nothing |
| `Traces.Trace.Send` | tools/zmuxwire/tracedsl.py:403-417 | records one step and keeps the balance: every key is charged with as many bytes as the steps deliver under it; a failure changes nothing |
| `Traces.Trace.SendMessages` | tools/zmuxwire/tracedsl.py:419-438 | the same for whole messages, counted in their byte-stream form; frame lists are recorded beside their bytes |
| `Traces.Trace.Raw` | tools/zmuxwire/tracedsl.py:440-447 | the same for raw bytes |
| `Traces.Trace.AddOther` | tools/zmuxwire/tracedsl.py:378-401 | steps that deliver nothing are recorded with all their fields and keep the balance |
| `Traces.MessagesInOrder` | tools/zmuxwire/tracedsl.py:430-434 | messages are encoded one by one in their order, and an error in one is an error of all |
| `Traces.FirstFrameIsFirst` | tools/zmuxwire/tracedsl.py:371-373 | the frame that can name a pipe is the first of the first record |
| `Traces.StepsRecorded` | tools/zmuxwire/tracedsl.py:403-447 | the steps recorded for records, raw bytes and messages, key by key |
| `Traces.FramedLength` | tools/zmuxwire/frames.py:582-584 | the positions of messages add up to the length of their byte-stream form |
| `Traces.CountedIsDelivered` | tools/zmuxwire/tracedsl.py:366-447 | under every key of a balanced trace where no counted step has a placeholder for a count that matters, the count is the number of bytes the runner delivers, for all values from 2^14 to 2^30 - 1 |
| `Traces.CountedBeforeRunning` | TRACES.md:392-406 | in a balanced trace with placeholders in positions of PIPE_ACKs, the count under every key is the number of bytes the runner delivers, for all values below 2^30 |
| `Traces.RightWithoutLiveSteps` | tools/zmuxwire/tracedsl.py:366-447 | under a key of a balanced trace the count is right for all values from 2^14 to 2^30 - 1 if and only if no step counted there has such a placeholder |
| `Traces.ChargedWhereNamed` | tools/zmuxwire/tracedsl.py:366-414 | charging by the named pipe or carrier stays balanced if and only if the step is no deferred PIPE_JOIN on a carrier of another name |
| `Traces.BalancedWhereNamed` | tools/zmuxwire/tracedsl.py:366-447 | over a whole history without such a step, every pipe or carrier has been charged with what the steps that name it deliver |
| `Traces.JoinOnACarrier` | tools/zmuxwire/tracedsl.py:366-414 | such a step exists, and is charged unlike the same join without a placeholder |

## Left out

- RAW frames, `reserved_flags`, forced type and Size widths, numeric directions and states, and a raw transport-parameter body: ways to write invalid vectors. REPEAT is modelled. A trace step that uses one of them counts as failing to encode here.
- Parameters that mix a name with a raw value or a registered number with a value: the builder of the repository writes a name with a value or a number with raw bytes.
- Decoder.DecodeFrame: its error code is not related to that of the slice when the type starts before `end` and runs over it, where a non-minimal type gives another one; callers pass the end of the buffer, where this cannot happen. `end` is within the buffer, as for every caller.
- PlaceholderLengths.LengthWithoutResolving: covers values from 2^14 to 2^30 - 1, which the encoder itself writes in four bytes, in any field; smaller values are covered where TRACES.md allows placeholders, in positions of PIPE_ACKs (`Runner.LengthBeforeResolving`).
- Traces.Trace.Add: a step given hex directly is recorded and left to its caller to count, as in the original; the balance is kept by `Send`, `Raw` and `SendMessages`.
- The hexadecimal text of a step and of its messages is modelled as their bytes, and the kind and the fields of a step that is no `peer_send` are one list of entries.
- Strings that the codec compares (frame, parameter, direction, status and role names) are enumerated; other strings are characters. Python's equality of `True` with 1 as dict keys is not modelled.
- SHA-256 and HMAC: any function with 32 bytes of output. `hkdf_extract`, `session_secret` and `select_secret_mode` are single expressions around it.
- `encode_preamble` raising for a type or length beyond 2^62 - 1 is the precondition `PreambleEncodable`; `encode_flow_prefix` and `decode_flow_prefix` would add two more varint round trips.
- The names and notes of annotator rows, `table`, and Markdown in general: row names are kept as strings but nothing is stated about them, notes are dropped.
- Error texts; only the codes FRAME_ENCODING_ERROR, PROTOCOL_VIOLATION and TRANSPORT_PARAMETER_ERROR are kept.
- ALPN aliases, GREASE helpers for transport parameters, registry tables of error codes, and the allocation of code points.
- The scripted scenarios of `tools/build_traces.py`, the tables of `tools/build_wire.py`, rendering, manifests and file access.
- Endpoint behaviour (flow control, scheduling, failover, resume): no code of the repository implements it.
