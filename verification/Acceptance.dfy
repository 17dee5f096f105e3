/** Which frames the codec takes, in numbers: what encode_frame can write and what decode_frame can
    return (tools/zmuxwire/frames.py lines 62-523). */
module Acceptance {
  import opened Base
  import opened Varint
  import opened Registry
  import opened Fields
  import opened TransportParameters
  import opened Frames
  import opened Canonical
  import opened Normal
  import opened Layout
  import Records

  // ---------------------------------------------------------------- what can be encoded

  /** A number that fits a varint. */
  predicate Fits(n: int) {
    0 <= n < 0x4000_0000_0000_0000
  }

  predicate ParamFits(p: Param) {
    match p
    case Known(name, value) => HoldsNothing(name) || (HasForm(name, value) && ValueInRange(value))
    case Opaque(id, raw) => Fits(id) && Fits(|raw|)
  }

  predicate AckFits(e: AckEntry) {
    Fits(e.pipe) && Fits(e.lane) && Fits(e.position) && Fits(e.delay)
  }

  /** encode_frame does not raise. */
  predicate CanEncode(f: Frame) {
    match f
    case Padding(_) => true
    case ResetStream(id, code, finalSize) => Fits(id) && Fits(code) && Fits(finalSize)
    case ResetStreamAt(id, code, finalSize, reliableSize) =>
      Fits(id) && Fits(code) && Fits(finalSize) && Fits(reliableSize)
    case StopSending(id, code) => Fits(id) && Fits(code)
    case Stream(id, off, hasOff, hasLen, _, data) =>
      && Fits(id) && ((if hasOff.Some? then hasOff.value else off > 0) ==> Fits(off))
      && (hasLen != Some(false) ==> Fits(|data|))
    case MaxData(max) => Fits(max)
    case MaxStreamData(id, max) => Fits(id) && Fits(max)
    case MaxStreams(_, max) => Fits(max)
    case DataBlocked(limit) => Fits(limit)
    case StreamDataBlocked(id, limit) => Fits(id) && Fits(limit)
    case StreamsBlocked(_, limit) => Fits(limit)
    case ConnectionClose(app, code, frameType, reason) =>
      Fits(code) && (!app && frameType.Some? ==> Fits(frameType.value)) && Fits(|reason|)
    case Datagram(hasLen, data) => hasLen != Some(false) ==> Fits(|data|)
    case QxTransportParameters(params) =>
      (forall i :: 0 <= i < |params| ==> ParamFits(params[i])) && Fits(|BlockLayout(params)|)
    case QxPing(_, seqno) => Fits(seqno)
    case Goaway(maxBidi, maxUni, code) => Fits(maxBidi) && Fits(maxUni) && Fits(code)
    case PriorityUpdate(id, seqno, urgency, _) => Fits(id) && Fits(seqno) && 0 <= urgency <= 7
    case PipeJoin(j) => |j.locator| <= 255 && Fits(j.pipe) && Fits(j.fateGroup) && Fits(j.priority)
    case PipeAck(entries) => Fits(|entries|) && forall i :: 0 <= i < |entries| ==> AckFits(entries[i])
    case PipeLane(laneKey, pipe, lane) => |laneKey| == 16 && Fits(pipe) && Fits(lane)
    case PipePing => true
    case PipeAbandon(pipe, code) => Fits(pipe) && Fits(code)
    case PipeStatus(pipe, seqno, _, priority) => Fits(pipe) && Fits(seqno) && Fits(priority)
    case Repeat(_, g) => CanEncode(g)
  }

  lemma VarintsPrintable(a: int, b: int, c: int, d: int)
    ensures AllPrintable(V1(d)) <==> Fits(d)
    ensures AllPrintable(V2(c, d)) <==> Fits(c) && Fits(d)
    ensures AllPrintable(V3(b, c, d)) <==> Fits(b) && Fits(c) && Fits(d)
    ensures AllPrintable(V4(a, b, c, d)) <==> Fits(a) && Fits(b) && Fits(c) && Fits(d)
  {
    assert AllPrintable(FNil);
    assert AllPrintable(V1(d)) <==> Fits(d);
    assert AllPrintable(V2(c, d)) <==> Fits(c) && AllPrintable(V1(d));
    assert AllPrintable(V3(b, c, d)) <==> Fits(b) && AllPrintable(V2(c, d));
    assert AllPrintable(V4(a, b, c, d)) <==> Fits(a) && AllPrintable(V3(b, c, d));
  }

  lemma NoFields()
    ensures AllPrintable(FNil)
  {
  }

  lemma EncodableVarints(f: Frame)
    requires f.ResetStream? || f.ResetStreamAt? || f.StopSending? || f.MaxData? || f.MaxStreamData? || f.MaxStreams?
             || f.DataBlocked? || f.StreamDataBlocked? || f.StreamsBlocked? || f.QxPing? || f.Goaway? || f.PipePing?
             || f.PipeAbandon? || f.PipeStatus?
    ensures Encodable(f) <==> CanEncode(f)
  {
    hide AllPrintable, V1, V2, V3, V4;
    match f
    case ResetStream(id, code, finalSize) => VarintsPrintable(0, id, code, finalSize);
    case ResetStreamAt(id, code, finalSize, reliableSize) => VarintsPrintable(id, code, finalSize, reliableSize);
    case StopSending(id, code) => VarintsPrintable(0, 0, id, code);
    case MaxData(max) => VarintsPrintable(0, 0, 0, max);
    case MaxStreamData(id, max) => VarintsPrintable(0, 0, id, max);
    case MaxStreams(_, max) => VarintsPrintable(0, 0, 0, max);
    case DataBlocked(limit) => VarintsPrintable(0, 0, 0, limit);
    case StreamDataBlocked(id, limit) => VarintsPrintable(0, 0, id, limit);
    case StreamsBlocked(_, limit) => VarintsPrintable(0, 0, 0, limit);
    case QxPing(_, seqno) => VarintsPrintable(0, 0, 0, seqno);
    case Goaway(maxBidi, maxUni, code) => VarintsPrintable(0, maxBidi, maxUni, code);
    case PipePing => NoFields();
    case PipeAbandon(pipe, code) => VarintsPrintable(0, 0, pipe, code);
    case PipeStatus(pipe, seqno, status, priority) =>
      VarintsPrintable(pipe, seqno, StatusCode(status), priority);
  }

  lemma OneField(f: Field)
    ensures AllPrintable(FCons(f, FNil)) <==> Printable(f)
  {
    NoFields();
  }

  lemma TwoFields(n: int, rest: FieldList)
    ensures AllPrintable(FCons(FVarint(n), rest)) <==> Fits(n) && AllPrintable(rest)
  {
  }

  lemma FixedFirst(bs: Bytes, rest: FieldList)
    ensures AllPrintable(FCons(FFixed(bs), rest)) <==> AllPrintable(rest)
  {
  }

  lemma EncodableData(f: Frame)
    requires f.Stream? || f.ConnectionClose? || f.Datagram? || f.PriorityUpdate? || f.PipeLane?
    ensures Encodable(f) <==> CanEncode(f)
  {
    hide AllPrintable, V2;
    match f
    case Stream(id, off, _, _, _, data) =>
      var last := DataField(HasLen(f), data);
      OneField(last);
      TwoFields(off, FCons(last, FNil));
      TwoFields(id, FCons(last, FNil));
      TwoFields(id, FCons(FVarint(off), FCons(last, FNil)));
    case ConnectionClose(_, code, frameType, reason) =>
      var last := FCons(FVarBytes(reason), FNil);
      OneField(FVarBytes(reason));
      TwoFields(frameType.GetOr(0), last);
      TwoFields(code, last);
      TwoFields(code, FCons(FVarint(frameType.GetOr(0)), last));
    case Datagram(_, data) => OneField(DataField(HasLen(f), data));
    case PriorityUpdate(id, seqno, urgency, incremental) =>
      var last := FByte(PriorityByte(urgency, incremental));
      OneField(last);
      TwoFields(seqno, FCons(last, FNil));
      TwoFields(id, FCons(FVarint(seqno), FCons(last, FNil)));
    case PipeLane(laneKey, pipe, lane) =>
      VarintsPrintable(0, 0, pipe, lane);
      FixedFirst(laneKey, V2(pipe, lane));
  }

  lemma EncodableJoin(f: Frame)
    requires f.PipeJoin?
    ensures Encodable(f) <==> CanEncode(f)
  {
    hide AllPrintable, JoinFields;
    JoinPrintable(f.join);
  }

  lemma EncodableAck(f: Frame)
    requires f.PipeAck?
    ensures Encodable(f) <==> CanEncode(f)
  {
    hide AllPrintable;
    OneField(FEntries(f.entries));
  }

  lemma ParamFitsEncodable(p: Param)
    ensures ParamEncodable(p) <==> ParamFits(p)
  {
    hide ValueEncodable, ValueBytes;
    if p.Known? {
      ValueBytesLayout(p.name, p.value);
    }
  }

  lemma EncodableBlock(f: Frame)
    requires f.QxTransportParameters?
    ensures Encodable(f) <==> CanEncode(f)
  {
    hide AllPrintable, ParamEncodable, ParamFits, TpsBytes, BlockLayout;
    forall i | 0 <= i < |f.params| ensures ParamEncodable(f.params[i]) <==> ParamFits(f.params[i]) {
      ParamFitsEncodable(f.params[i]);
    }
    if ParamsEncodable(f.params) {
      BlockBytesLayout(f.params);
      OneField(FVarBytes(TpsBytes(f.params)));
    }
  }

  /** The frames that can be encoded, in numbers. */
  lemma {:induction false} EncodableExactly(f: Frame)
    ensures Encodable(f) <==> CanEncode(f)
  {
    hide AllPrintable, FieldsOf;
    match f
    case Padding(_) =>
    case Repeat(_, g) => EncodableExactly(g);
    case Stream(_, _, _, _, _, _) => EncodableData(f);
    case ConnectionClose(_, _, _, _) => EncodableData(f);
    case Datagram(_, _) => EncodableData(f);
    case PriorityUpdate(_, _, _, _) => EncodableData(f);
    case PipeLane(_, _, _) => EncodableData(f);
    case PipeJoin(_) => EncodableJoin(f);
    case PipeAck(_) => EncodableAck(f);
    case QxTransportParameters(_) => EncodableBlock(f);
    case _ => EncodableVarints(f);
  }

  // ---------------------------------------------------------------- what can be decoded

  /** A parameter block that some bytes decode to. */
  ghost predicate BlockDecodable(ps: seq<Param>) {
    exists b: Bytes :: DecodeTpsSpec(b) == Ok(ps)
  }

  /** What a decoded frame satisfies beyond being encodable. */
  ghost predicate CanDecode(f: Frame) {
    CanEncode(f) &&
    match f
    case Padding(n) => n > 0
    case Repeat(_, _) => false
    case ResetStreamAt(_, _, finalSize, reliableSize) => reliableSize <= finalSize
    case Stream(_, off, hasOff, hasLen, _, data) =>
      && hasOff.Some? && hasLen.Some? && (hasOff == Some(false) ==> off == 0)
      && off + |data| < 0x4000_0000_0000_0000
    case MaxStreams(_, max) => max <= 0x1000_0000_0000_0000
    case StreamsBlocked(_, limit) => limit <= 0x1000_0000_0000_0000
    case ConnectionClose(app, _, frameType, _) => app <==> frameType.None?
    case Datagram(hasLen, _) => hasLen.Some?
    case QxTransportParameters(params) => BlockDecodable(params)
    case Goaway(maxBidi, maxUni, _) => maxBidi <= 0x1000_0000_0000_0000 && maxUni <= 0x1000_0000_0000_0000
    case PipeJoin(j) => 1 <= |j.locator| <= 16 && |j.token| == 16
    case PipeAck(es) =>
      es != [] &&
      forall i, j :: 0 <= i < j < |es| ==>
        es[i].pipe < es[j].pipe || (es[i].pipe == es[j].pipe && es[i].lane < es[j].lane)
    case _ => true
  }

  lemma BlockExactly(ps: seq<Param>)
    ensures BlockDecodable(ps) <==> TpsWellFormed(ps)
  {
    hide DecodeTpsSpec, TpsWellFormed;
    if TpsWellFormed(ps) {
      TpsRoundTrip(ps);
    }
    forall b | DecodeTpsSpec(b) == Ok(ps) ensures TpsWellFormed(ps) {
      TpsShrink(b);
    }
  }

  lemma OffsetFits(f: Frame)
    requires f.Stream? && CanEncode(f) && f.hasOff.Some?
    ensures f.hasOff == Some(true) ==> IsVarint(f.off)
  {
  }

  lemma WellFormedExactly(f: Frame)
    ensures FrameWellFormed(f) <==> CanDecode(f)
  {
    hide Encodable, CanEncode, TpsWellFormed, BlockDecodable, IncreasingEntries;
    EncodableExactly(f);
    if f.QxTransportParameters? {
      BlockExactly(f.params);
    }
    if f.PipeAck? {
      IncreasingIsOrdered(f.entries);
    }
    if f.Stream? && CanEncode(f) && f.hasOff.Some? {
      OffsetFits(f);
    }
  }

  /** The frames that some bytes decode to, in numbers. */
  lemma DecodableExactly(f: Frame)
    ensures CanDecode(f) <==> exists b, n :: DecodeFrameSpec(b, None, None) == Ok((f, n))
  {
    hide DecodeFrameSpec, FrameWellFormed, CanDecode, Wire, KindOf, TakesRest;
    WellFormedExactly(f);
    if FrameWellFormed(f) {
      FrameRoundTrip(f, [], None, None);
    }
    forall b, n | DecodeFrameSpec(b, None, None) == Ok((f, n)) ensures FrameWellFormed(f) {
      FrameShrinks(b, None, None);
    }
  }

  // ---------------------------------------------------------------- what the receiver has negotiated

  /** A frame that is admitted when these features are negotiated. */
  predicate AdmittedBy(f: Frame, features: set<Gate>) {
    match f
    case ResetStreamAt(_, _, _, _) => GateResetStreamAt in features
    case Datagram(_, _) => GateMaxDatagramFrameSize in features
    case Goaway(_, _, _) => GateGoaway in features
    case PriorityUpdate(_, _, _, _) => GatePriority in features
    case PipeJoin(_) => GateMultipath in features
    case PipeAck(_) => GateMultipath in features || GatePipeAck in features
    case PipeLane(_, _, _) => GateMaxLanes in features
    case PipePing => GateMultipath in features
    case PipeAbandon(_, _) => GateMultipath in features
    case PipeStatus(_, _, _, _) => GateMultipath in features
    case _ => true
  }

  lemma SingleFeature(features: set<Gate>)
    ensures forall gate: Gate :: {gate} * features != {} <==> gate in features
    ensures {GateMultipath, GatePipeAck} * features != {} <==> GateMultipath in features || GatePipeAck in features
  {
    forall gate: Gate ensures {gate} * features != {} <==> gate in features {
      assert gate in features ==> gate in {gate} * features;
    }
    var both := {GateMultipath, GatePipeAck};
    assert GateMultipath in features ==> GateMultipath in both * features;
    assert GatePipeAck in features ==> GatePipeAck in both * features;
  }

  lemma AdmittedIsNegotiated(f: Frame, features: set<Gate>)
    requires !f.Repeat?
    ensures Negotiated(KindOf(f), Some(features)) <==> AdmittedBy(f, features)
  {
    SingleFeature(features);
  }

  /** The code with which a frame type is refused when no feature admits it. */
  lemma RefusalOfKind(b: Bytes, features: set<Gate>, limit: Option<int>)
    requires DecodeFrameSpec(b, None, limit).Ok?
    requires var f := DecodeFrameSpec(b, None, limit).value.0;
             !f.Repeat? && !Negotiated(KindOf(f), Some(features))
    ensures var f := DecodeFrameSpec(b, None, limit).value.0;
            DecodeFrameSpec(b, Some(features), limit) == Err(GateError(KindOf(f)))
  {
    hide DecV, FrameByType, DecodeBody, KindOf, WithinLimit, ZeroRun, GateError;
    var (code, w) := DecV(b).value;
    if code == 0 {
      PaddingKind(1 + ZeroRun(b[1..]));
    } else {
      var kind := FrameByType(code).value.kind;
      KindCodes(PADDING, code);
      BodyKind(kind, code, b[w..]);
    }
  }

  lemma DatagramKind(f: Frame)
    requires !f.Repeat?
    ensures KindOf(f) == DATAGRAM <==> f.Datagram?
  {
  }

  /** Which feature admits which frame, and how a frame without its feature is refused. */
  lemma DecodedUnderFeatures(b: Bytes, features: set<Gate>, limit: Option<int>)
    requires DecodeFrameSpec(b, None, limit).Ok?
    ensures var (f, n) := DecodeFrameSpec(b, None, limit).value;
            DecodeFrameSpec(b, Some(features), limit) ==
              if AdmittedBy(f, features) then Ok((f, n))
              else Err(if f.Datagram? then ProtocolViolation else FrameEncodingError)
  {
    hide DecodeFrameSpec, KindOf, AdmittedBy, Negotiated;
    FrameGates(b, None, limit);
    FrameGates(b, Some(features), limit);
    var f := DecodeFrameSpec(b, None, limit).value.0;
    AdmittedIsNegotiated(f, features);
    if !AdmittedBy(f, features) {
      RefusalOfKind(b, features, limit);
      DatagramKind(f);
    }
  }

  /** The limit refuses exactly the DATAGRAM frames that take more bytes. */
  lemma DecodedUnderLimit(b: Bytes, enabled: Gates, limit: int)
    requires DecodeFrameSpec(b, enabled, None).Ok?
    ensures var (f, n) := DecodeFrameSpec(b, enabled, None).value;
            DecodeFrameSpec(b, enabled, Some(limit)) ==
              if f.Datagram? && n > limit then Err(ProtocolViolation) else Ok((f, n))
  {
    hide DecV, FrameByType, DecodeBody, ZeroRun, Negotiated;
  }

  // ---------------------------------------------------------------- which types there are

  /** The frame types of zmux. */
  predicate ActiveType(code: int) {
    || code == 0x00 || 0x04 <= code <= 0x05 || 0x08 <= code <= 0x17 || 0x1C <= code <= 0x1D || code == 0x24
    || 0x30 <= code <= 0x31 || code == 0x3F51_5330_0D0A_0D0A
    || 0x348C_6752_9EF8_C7BD <= code <= 0x348C_6752_9EF8_C7BE
    || code == 0x1911_F43E || code == 0x073D_08CF || code == 0x1A24_DE36 || code == 0x0B2B_3EEB
    || code == 0x3A05_A1C9 || code == 0x269B_43E6 || code == 0x23B3_5B74 || code == 0x227B_2811
  }

  /** The types that are not decoded: truncated, not in the fewest bytes, or none of the kinds. */
  lemma RefusedTypes(b: Bytes, enabled: Gates, limit: Option<int>)
    ensures DecV(b).None? ==> DecodeFrameSpec(b, enabled, limit) == Err(FrameEncodingError)
    ensures DecV(b).Some? && DecV(b).value.1 != VarintLen(DecV(b).value.0) ==>
              DecodeFrameSpec(b, enabled, limit) == Err(ProtocolViolation)
    ensures DecV(b).Some? && DecV(b).value.1 == VarintLen(DecV(b).value.0) && !ActiveType(DecV(b).value.0) ==>
              DecodeFrameSpec(b, enabled, limit) == Err(FrameEncodingError)
  {
    hide DecV, DecodeBody, ZeroRun, Negotiated;
  }

  /** A type that some negotiated feature admits, or that needs none. */
  predicate TypeAdmitted(code: int, features: set<Gate>) {
    && (code == 0x24 ==> GateResetStreamAt in features)
    && (0x30 <= code <= 0x31 ==> GateMaxDatagramFrameSize in features)
    && (code == 0x1911_F43E ==> GateGoaway in features)
    && (code == 0x073D_08CF ==> GatePriority in features)
    && (code == 0x0B2B_3EEB ==> GateMultipath in features || GatePipeAck in features)
    && (code == 0x3A05_A1C9 ==> GateMaxLanes in features)
    && (code in {0x1A24_DE36, 0x269B_43E6, 0x23B3_5B74, 0x227B_2811} ==> GateMultipath in features)
  }

  lemma TypeFeatures(code: vint, features: set<Gate>)
    requires ActiveType(code)
    ensures FrameByType(code).Some? && FrameByType(code).value.Active?
    ensures var kind := FrameByType(code).value.kind;
            && (Negotiated(kind, Some(features)) <==> TypeAdmitted(code, features))
            && (kind == DATAGRAM <==> 0x30 <= code <= 0x31)
  {
    SingleFeature(features);
  }

  /** A type without its feature is refused before its body is read. */
  lemma RefusedWithoutFeature(b: Bytes, features: set<Gate>, limit: Option<int>)
    requires DecV(b).Some? && DecV(b).value.1 == VarintLen(DecV(b).value.0)
    requires ActiveType(DecV(b).value.0) && !TypeAdmitted(DecV(b).value.0, features)
    ensures DecodeFrameSpec(b, Some(features), limit) ==
              Err(if 0x30 <= DecV(b).value.0 <= 0x31 then ProtocolViolation else FrameEncodingError)
  {
    hide DecV, DecodeBody, ZeroRun, Negotiated, FrameByType;
    TypeFeatures(DecV(b).value.0, features);
  }

  // ---------------------------------------------------------------- what was sent comes back

  /** An encodable frame whose bytes a receiver accepts. */
  ghost predicate WellSent(f: Frame)
    requires !f.Repeat? && !f.Padding?
  {
    match f
    case ResetStreamAt(_, _, finalSize, reliableSize) => reliableSize <= finalSize
    case Stream(_, off, hasOff, _, _, data) =>
      (if (if hasOff.Some? then hasOff.value else off > 0) then off else 0) + |data| < 0x4000_0000_0000_0000
    case MaxStreams(_, max) => max <= 0x1000_0000_0000_0000
    case StreamsBlocked(_, limit) => limit <= 0x1000_0000_0000_0000
    case QxTransportParameters(params) => BlockDecodable(params)
    case Goaway(maxBidi, maxUni, _) => maxBidi <= 0x1000_0000_0000_0000 && maxUni <= 0x1000_0000_0000_0000
    case PipeJoin(j) => 1 <= |j.locator| <= 16 && |j.token| == 16
    case PipeAck(es) =>
      es != [] &&
      forall i, j :: 0 <= i < j < |es| ==>
        es[i].pipe < es[j].pipe || (es[i].pipe == es[j].pipe && es[i].lane < es[j].lane)
    case _ => true
  }

  /** The frame that such bytes are read as: flags said, what they leave out forgotten. */
  function ReadAs(f: Frame): Frame {
    match f
    case Stream(id, off, hasOff, hasLen, fin, data) =>
      var sent := if hasOff.Some? then hasOff.value else off > 0;
      Stream(id, if sent then off else 0, Some(sent), Some(if hasLen.Some? then hasLen.value else true), fin, data)
    case Datagram(hasLen, data) => Datagram(Some(if hasLen.Some? then hasLen.value else true), data)
    case ConnectionClose(true, code, _, reason) => ConnectionClose(true, code, None, reason)
    case ConnectionClose(false, code, frameType, reason) =>
      ConnectionClose(false, code, Some(if frameType.Some? then frameType.value else 0), reason)
    case _ => f
  }

  lemma ExplicitIsRead(f: Frame)
    ensures Explicit(f) == ReadAs(f)
  {
  }

  lemma WellSentExactly(f: Frame)
    requires !f.Repeat? && !f.Padding? && Encodable(f)
    ensures FrameWellFormed(ReadAs(f)) <==> WellSent(f)
  {
    hide Encodable, CanEncode, TpsWellFormed, BlockDecodable, IncreasingEntries, Wire;
    ExplicitIsRead(f);
    ExplicitWire(f);
    WellFormedExactly(ReadAs(f));
    EncodableExactly(ReadAs(f));
    if f.Stream? {
      OffsetFits(ReadAs(f));
    }
  }

  /** Every frame that is sent so is read as that frame, and the next one starts where it ends. */
  lemma SentComesBack(f: Frame, tail: Bytes)
    requires !f.Repeat? && !f.Padding? && Encodable(f) && WellSent(f)
    requires (f.Stream? || f.Datagram?) && f.hasLen == Some(false) ==> tail == []
    ensures DecodeFrameSpec(Wire(f) + tail, None, None) == Ok((ReadAs(f), |Wire(f)|))
  {
    hide DecodeFrameSpec, FrameWellFormed, Wire, KindOf, WellSent, Encodable;
    WellSentExactly(f);
    ExplicitIsRead(f);
    ExplicitWire(f);
    FrameRoundTrip(ReadAs(f), tail, None, None);
  }

  // ---------------------------------------------------------------- messages and records

  /** The bytes of a message: its frames one after the other. */
  function MessageLayout(fs: seq<Frame>): Bytes {
    if fs == [] then [] else FrameLayout(fs[0]) + MessageLayout(fs[1..])
  }

  lemma {:induction false} MessageBytesLayout(fs: seq<Frame>)
    requires AllEncodable(fs)
    ensures WireAll(fs) == MessageLayout(fs)
  {
    hide Wire, FrameLayout, Encodable;
    if fs == [] {
    } else {
      WireLayout(fs[0]);
      MessageBytesLayout(fs[1..]);
    }
  }

  /** A record: the length of its message, and the message. */
  lemma RecordLayout(fs: seq<Frame>)
    requires Records.RecordEncodable(fs)
    ensures Records.RecordWire(fs) == V(|MessageLayout(fs)|) + MessageLayout(fs)
  {
    hide EncV, WireAll, MessageLayout;
    MessageBytesLayout(fs);
  }
}
