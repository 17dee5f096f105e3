/** The bytes of every frame, written out: the type as it stands on the wire, then the fields in
    their order (tools/zmuxwire/registry.py lines 56-205, tools/zmuxwire/frames.py lines 38-326). */
module Layout {
  import opened Base
  import opened Varint
  import opened Registry
  import opened Fields
  import opened TransportParameters
  import opened Frames

  /** A varint; nothing when it is out of range. */
  function V(n: int): Bytes {
    if 0 <= n < 0x4000_0000_0000_0000 then EncV(n) else []
  }

  function Byte(n: int): Bytes {
    if 0 <= n < 256 then [n] else []
  }

  // ---------------------------------------------------------------- transport parameters

  /** The id of a parameter. */
  function IdNumber(name: TpName): int {
    match name
    case MaxIdleTimeout => 0x01
    case InitialMaxData => 0x04
    case InitialMaxStreamDataBidiLocal => 0x05
    case InitialMaxStreamDataBidiRemote => 0x06
    case InitialMaxStreamDataUni => 0x07
    case InitialMaxStreamsBidi => 0x08
    case InitialMaxStreamsUni => 0x09
    case ResetStreamAtSupport => 0x1D
    case MaxDatagramFrameSize => 0x20
    case MaxRecordSize => 0x0571_C594_29CD_0845
    case ZmuxRole => 0x1724_0207
    case ZmuxGoaway => 0x0452_8A5F
    case ZmuxPreamble => 0x0439_E07A
    case ZmuxPriority => 0x31E7_139D
    case ZmuxDatagramFlows => 0x0AF3_91ED
    case ZmuxCarrierDatagrams => 0x3D27_4C5F
    case ZmuxMultipath => 0x30DC_2978
    case ZmuxPipeAck => 0x34B4_7621
    case ZmuxAckThreshold => 0x2762_C7E5
    case ZmuxMaxAckDelay => 0x17FA_1ED6
    case ZmuxMaxLanes => 0x2785_6EF0
    case ZmuxResume => 0x0D57_78CE
  }

  predicate HoldsNothing(name: TpName) {
    name in {ResetStreamAtSupport, ZmuxGoaway, ZmuxPriority, ZmuxDatagramFlows, ZmuxCarrierDatagrams, ZmuxPipeAck}
  }

  /** The value of a parameter of this name. */
  function ValueLayout(name: TpName, value: TpValue): Bytes {
    if HoldsNothing(name) then []
    else
      match value
      case VarintValue(n) => V(n)
      case RoleValue(Initiator) => [0x00]
      case RoleValue(Responder) => [0x01]
      case RoleValue(Auto(nonce)) => [0x02] + if nonce >= 0 then ToBytes(nonce, 8) else []
      case MultipathValue(flags, nonce, locator) => Byte(flags) + nonce + Byte(|locator|) + locator
      case LanesValue(maxLanes, laneKey) => V(maxLanes) + laneKey
      case NoValue => []
  }

  function ParamLayout(p: Param): Bytes {
    match p
    case Known(name, value) => V(IdNumber(name)) + (V(|ValueLayout(name, value)|) + ValueLayout(name, value))
    case Opaque(id, raw) => V(id) + (V(|raw|) + raw)
  }

  function BlockLayout(ps: seq<Param>): Bytes {
    if ps == [] then [] else ParamLayout(ps[0]) + BlockLayout(ps[1..])
  }

  /** The form of the value that a parameter of this name can hold. */
  predicate HasForm(name: TpName, value: TpValue) {
    match value
    case NoValue => HoldsNothing(name)
    case RoleValue(_) => name.ZmuxRole?
    case MultipathValue(_, _, _) => name.ZmuxMultipath?
    case LanesValue(_, _) => name.ZmuxMaxLanes?
    case VarintValue(_) => !HoldsNothing(name) && !name.ZmuxRole? && !name.ZmuxMultipath? && !name.ZmuxMaxLanes?
  }

  lemma RoleCodes()
    ensures EncV(0) == [0x00] && EncV(1) == [0x01] && EncV(2) == [0x02]
  {
    VarintLayout(0);
    VarintLayout(1);
    VarintLayout(2);
  }

  /** A value whose parts fit their places. */
  predicate ValueInRange(value: TpValue) {
    match value
    case NoValue => true
    case VarintValue(n) => 0 <= n < 0x4000_0000_0000_0000
    case RoleValue(Auto(nonce)) => 0 <= nonce < 0x1_0000_0000_0000_0000
    case RoleValue(_) => true
    case MultipathValue(flags, nonce, locator) => 0 <= flags < 256 && |nonce| == 16 && |locator| < 256
    case LanesValue(maxLanes, laneKey) => 0 <= maxLanes < 0x4000_0000_0000_0000 && |laneKey| == 16
  }

  /** What encode_tp_value accepts, and what it writes. */
  lemma ValueBytesLayout(name: TpName, value: TpValue)
    ensures ValueEncodable(name, value) <==> HoldsNothing(name) || (HasForm(name, value) && ValueInRange(value))
    ensures ValueEncodable(name, value) ==> ValueBytes(name, value) == ValueLayout(name, value)
  {
    hide EncV, ToBytes;
    RoleCodes();
    PowersOf256();
  }

  lemma ParamBytesLayout(p: Param)
    requires ParamEncodable(p)
    ensures ParamBytes(p) == ParamLayout(p)
  {
    hide EncV, ValueBytes, ValueLayout, ValueEncodable;
    if p.Known? {
      ValueBytesLayout(p.name, p.value);
    }
  }

  /** Every parameter block: id, length and value of each parameter, in their order. */
  lemma {:induction false} BlockBytesLayout(ps: seq<Param>)
    requires ParamsEncodable(ps)
    ensures TpsBytes(ps) == BlockLayout(ps)
  {
    hide ParamBytes, ParamLayout, ParamEncodable;
    if ps == [] {
    } else {
      ParamBytesLayout(ps[0]);
      BlockBytesLayout(ps[1..]);
    }
  }

  // ---------------------------------------------------------------- frames

  function AckLayout(es: seq<AckEntry>): Bytes {
    if es == [] then []
    else V(es[0].pipe) + (V(es[0].lane) + (V(es[0].position) + V(es[0].delay))) + AckLayout(es[1..])
  }

  function JoinFlagByte(j: Join): int {
    (if j.direction.Up? then 0 else if j.direction.Down? then 1 else 2)
    + (if j.carrierBound then 0x04 else 0) + (if j.standby then 0x08 else 0)
  }

  /** Data behind its length, or up to the end of the record. */
  function DataLayout(hasLen: bool, data: Bytes): Bytes {
    if hasLen then V(|data|) + data else data
  }

  /** STREAM: an offset unless it is 0 or told not to, and a length unless told not to. */
  function StreamLayout(id: int, off: int, hasOff: bool, hasLen: bool, fin: bool, data: Bytes): Bytes {
    Byte(0x08 + (if hasOff then 0x04 else 0) + (if hasLen then 0x02 else 0) + (if fin then 0x01 else 0))
    + (V(id) + ((if hasOff then V(off) else []) + DataLayout(hasLen, data)))
  }

  function RepeatLayout(n: nat, b: Bytes): Bytes {
    if n == 0 then [] else b + RepeatLayout(n - 1, b)
  }

  function FrameLayout(f: Frame): Bytes {
    match f
    case Padding(n) => seq(if n > 0 then n else 0, _ => 0)
    case ResetStream(id, code, finalSize) => [0x04] + (V(id) + (V(code) + V(finalSize)))
    case ResetStreamAt(id, code, finalSize, reliableSize) =>
      [0x24] + (V(id) + (V(code) + (V(finalSize) + V(reliableSize))))
    case StopSending(id, code) => [0x05] + (V(id) + V(code))
    case Stream(id, off, hasOff, hasLen, fin, data) =>
      StreamLayout(id, off, if hasOff.Some? then hasOff.value else off > 0,
                   if hasLen.Some? then hasLen.value else true, fin, data)
    case MaxData(max) => [0x10] + V(max)
    case MaxStreamData(id, max) => [0x11] + (V(id) + V(max))
    case MaxStreams(bidi, max) => [if bidi then 0x12 else 0x13] + V(max)
    case DataBlocked(limit) => [0x14] + V(limit)
    case StreamDataBlocked(id, limit) => [0x15] + (V(id) + V(limit))
    case StreamsBlocked(bidi, limit) => [if bidi then 0x16 else 0x17] + V(limit)
    case ConnectionClose(true, code, _, reason) => [0x1D] + (V(code) + (V(|reason|) + reason))
    case ConnectionClose(false, code, frameType, reason) =>
      [0x1C] + (V(code) + (V(if frameType.Some? then frameType.value else 0) + (V(|reason|) + reason)))
    case Datagram(hasLen, data) =>
      if hasLen == Some(false) then [0x30] + data else [0x31] + (V(|data|) + data)
    case QxTransportParameters(params) =>
      [0xFF, 0x51, 0x53, 0x30, 0x0D, 0x0A, 0x0D, 0x0A] + (V(|BlockLayout(params)|) + BlockLayout(params))
    case QxPing(response, seqno) =>
      [0xF4, 0x8C, 0x67, 0x52, 0x9E, 0xF8, 0xC7, if response then 0xBE else 0xBD] + V(seqno)
    case Goaway(maxBidi, maxUni, code) => [0x99, 0x11, 0xF4, 0x3E] + (V(maxBidi) + (V(maxUni) + V(code)))
    case PriorityUpdate(id, seqno, urgency, incremental) =>
      [0x87, 0x3D, 0x08, 0xCF] + (V(id) + (V(seqno) + Byte(0x20 * urgency + if incremental then 0x10 else 0)))
    case PipeJoin(j) =>
      [0x9A, 0x24, 0xDE, 0x36] + ((Byte(|j.locator|) + j.locator) + (V(j.pipe) + (Byte(JoinFlagByte(j))
      + (V(j.fateGroup) + (V(j.priority) + j.token)))))
    case PipeAck(entries) => [0x8B, 0x2B, 0x3E, 0xEB] + (V(|entries|) + AckLayout(entries))
    case PipeLane(laneKey, pipe, lane) => [0xBA, 0x05, 0xA1, 0xC9] + (laneKey + (V(pipe) + V(lane)))
    case PipePing => [0xA6, 0x9B, 0x43, 0xE6]
    case PipeAbandon(pipe, code) => [0xA3, 0xB3, 0x5B, 0x74] + (V(pipe) + V(code))
    case PipeStatus(pipe, seqno, status, priority) =>
      [0xA2, 0x7B, 0x28, 0x11]
      + (V(pipe) + (V(seqno) + ([if status.Available? then 0x00 else 0x01] + V(priority))))
    case Repeat(n, g) => if n <= 0 then [] else FrameLayout(g) + RepeatLayout(n - 1, FrameLayout(g))
  }

  // The encodings of the types.

  lemma ShortTypes(code: vint)
    requires code < 0x40
    ensures EncV(code) == [code]
  {
    VarintLayout(code);
  }

  lemma LongTypes()
    ensures EncV(0x3F51_5330_0D0A_0D0A) == [0xFF, 0x51, 0x53, 0x30, 0x0D, 0x0A, 0x0D, 0x0A]
    ensures EncV(0x348C_6752_9EF8_C7BD) == [0xF4, 0x8C, 0x67, 0x52, 0x9E, 0xF8, 0xC7, 0xBD]
    ensures EncV(0x348C_6752_9EF8_C7BE) == [0xF4, 0x8C, 0x67, 0x52, 0x9E, 0xF8, 0xC7, 0xBE]
  {
    hide EncV;
    VarintLayout(0x3F51_5330_0D0A_0D0A);
    VarintLayout(0x348C_6752_9EF8_C7BD);
    VarintLayout(0x348C_6752_9EF8_C7BE);
  }

  lemma FourByteTypes()
    ensures EncV(0x1911_F43E) == [0x99, 0x11, 0xF4, 0x3E] && EncV(0x073D_08CF) == [0x87, 0x3D, 0x08, 0xCF]
    ensures EncV(0x1A24_DE36) == [0x9A, 0x24, 0xDE, 0x36] && EncV(0x0B2B_3EEB) == [0x8B, 0x2B, 0x3E, 0xEB]
  {
    hide EncV;
    VarintLayout(0x1911_F43E);
    VarintLayout(0x073D_08CF);
    VarintLayout(0x1A24_DE36);
    VarintLayout(0x0B2B_3EEB);
  }

  lemma PipeTypes()
    ensures EncV(0x3A05_A1C9) == [0xBA, 0x05, 0xA1, 0xC9] && EncV(0x269B_43E6) == [0xA6, 0x9B, 0x43, 0xE6]
    ensures EncV(0x23B3_5B74) == [0xA3, 0xB3, 0x5B, 0x74] && EncV(0x227B_2811) == [0xA2, 0x7B, 0x28, 0x11]
  {
    hide EncV;
    VarintLayout(0x3A05_A1C9);
    VarintLayout(0x269B_43E6);
    VarintLayout(0x23B3_5B74);
    VarintLayout(0x227B_2811);
  }

  // Printed fields.

  lemma Last(b: Bytes)
    ensures b + [] == b
  {
  }

  lemma PrintVarints(a: int, b: int, c: int, d: int)
    ensures AllPrintable(V1(d)) ==> Print(V1(d)) == V(d)
    ensures AllPrintable(V2(c, d)) ==> Print(V2(c, d)) == V(c) + V(d)
    ensures AllPrintable(V3(b, c, d)) ==> Print(V3(b, c, d)) == V(b) + (V(c) + V(d))
    ensures AllPrintable(V4(a, b, c, d)) ==> Print(V4(a, b, c, d)) == V(a) + (V(b) + (V(c) + V(d)))
  {
    hide EncV;
    assert AllPrintable(FNil) && Print(FNil) == [];
    if AllPrintable(V1(d)) {
      Last(V(d));
      assert Print(V1(d)) == V(d);
    }
    if AllPrintable(V2(c, d)) {
      assert Print(V2(c, d)) == V(c) + Print(V1(d));
    }
    if AllPrintable(V3(b, c, d)) {
      assert Print(V3(b, c, d)) == V(b) + Print(V2(c, d));
    }
    if AllPrintable(V4(a, b, c, d)) {
      assert Print(V4(a, b, c, d)) == V(a) + Print(V3(b, c, d));
    }
  }

  lemma TypeAndFields(f: Frame)
    requires !f.Repeat? && !f.Padding? && Encodable(f)
    ensures AllPrintable(FieldsOf(f)) && Wire(f) == EncV(TypeCode(f)) + Print(FieldsOf(f))
  {
  }

  // Kind by kind.

  lemma LimitLayout(f: Frame)
    requires (f.MaxData? || f.MaxStreams? || f.DataBlocked? || f.StreamsBlocked?) && Encodable(f)
    ensures Wire(f) == FrameLayout(f)
  {
    hide EncV, Print, AllPrintable, V1, V, Encodable, Wire;
    TypeAndFields(f);
    ShortTypes(TypeCode(f));
    match f
    case MaxData(max) => PrintVarints(0, 0, 0, max);
    case MaxStreams(_, max) => PrintVarints(0, 0, 0, max);
    case DataBlocked(limit) => PrintVarints(0, 0, 0, limit);
    case StreamsBlocked(_, limit) => PrintVarints(0, 0, 0, limit);
  }

  lemma StreamLimitLayout(f: Frame)
    requires (f.StopSending? || f.MaxStreamData? || f.StreamDataBlocked?) && Encodable(f)
    ensures Wire(f) == FrameLayout(f)
  {
    hide EncV, Print, AllPrintable, V2, V, Encodable, Wire;
    TypeAndFields(f);
    ShortTypes(TypeCode(f));
    match f
    case StopSending(id, code) => PrintVarints(0, 0, id, code);
    case MaxStreamData(id, max) => PrintVarints(0, 0, id, max);
    case StreamDataBlocked(id, limit) => PrintVarints(0, 0, id, limit);
  }

  lemma ResetLayout(f: Frame)
    requires (f.ResetStream? || f.ResetStreamAt?) && Encodable(f)
    ensures Wire(f) == FrameLayout(f)
  {
    hide EncV, Print, AllPrintable, V3, V4, V, Encodable, Wire;
    TypeAndFields(f);
    ShortTypes(TypeCode(f));
    match f
    case ResetStream(id, code, finalSize) => PrintVarints(0, id, code, finalSize);
    case ResetStreamAt(id, code, finalSize, reliableSize) => PrintVarints(id, code, finalSize, reliableSize);
  }

  lemma SessionLayout(f: Frame)
    requires (f.QxPing? || f.Goaway?) && Encodable(f)
    ensures Wire(f) == FrameLayout(f)
  {
    hide EncV, Print, AllPrintable, V1, V3, V, Encodable, Wire;
    TypeAndFields(f);
    LongTypes();
    FourByteTypes();
    match f
    case QxPing(_, seqno) => PrintVarints(0, 0, 0, seqno);
    case Goaway(maxBidi, maxUni, code) => PrintVarints(0, maxBidi, maxUni, code);
  }

  lemma PipeLayout(f: Frame)
    requires (f.PipePing? || f.PipeAbandon? || f.PipeStatus?) && Encodable(f)
    ensures Wire(f) == FrameLayout(f)
  {
    hide EncV, AllPrintable, V2, V4, Encodable, Wire;
    TypeAndFields(f);
    PipeTypes();
    RoleCodes();
    match f
    case PipePing => Last([0xA6, 0x9B, 0x43, 0xE6]);
    case PipeAbandon(pipe, code) => PrintVarints(0, 0, pipe, code);
    case PipeStatus(pipe, seqno, status, priority) =>
      PrintVarints(pipe, seqno, if status.Available? then 0 else 1, priority);
  }

  lemma PrintData(hasLen: bool, data: Bytes)
    requires AllPrintable(FCons(DataField(hasLen, data), FNil))
    ensures Print(FCons(DataField(hasLen, data), FNil)) == DataLayout(hasLen, data)
  {
    hide EncV;
    assert Print(FNil) == [];
    Last(PrintField(DataField(hasLen, data)));
  }

  lemma PrintFirst(n: int, rest: FieldList)
    requires AllPrintable(FCons(FVarint(n), rest))
    ensures AllPrintable(rest) && Print(FCons(FVarint(n), rest)) == V(n) + Print(rest)
  {
    hide EncV;
  }

  lemma StreamFields(f: Frame)
    requires f.Stream? && AllPrintable(FieldsOf(f))
    ensures Print(FieldsOf(f)) == V(f.id) + ((if HasOff(f) then V(f.off) else []) + DataLayout(HasLen(f), f.data))
  {
    hide EncV, Print, AllPrintable, V, DataField, DataLayout;
    var rest := FCons(DataField(HasLen(f), f.data), FNil);
    if HasOff(f) {
      PrintFirst(f.id, FCons(FVarint(f.off), rest));
      PrintFirst(f.off, rest);
    } else {
      PrintFirst(f.id, rest);
    }
    PrintData(HasLen(f), f.data);
  }

  lemma StreamType(f: Frame)
    requires f.Stream?
    ensures EncV(TypeCode(f)) ==
              Byte(0x08 + (if HasOff(f) then 0x04 else 0) + (if HasLen(f) then 0x02 else 0)
                   + (if f.fin then 0x01 else 0))
  {
    hide EncV;
    ShortTypes(TypeCode(f));
  }

  lemma StreamBytes(f: Frame)
    requires f.Stream? && Encodable(f)
    ensures Wire(f) == FrameLayout(f)
  {
    hide EncV, Print, AllPrintable, FieldsOf, V, Byte, Encodable, Wire, TypeCode, DataLayout;
    TypeAndFields(f);
    StreamType(f);
    StreamFields(f);
  }

  lemma CloseLayout(f: Frame)
    requires f.ConnectionClose? && Encodable(f)
    ensures Wire(f) == FrameLayout(f)
  {
    hide EncV, Print, AllPrintable, V, Encodable, Wire;
    TypeAndFields(f);
    ShortTypes(TypeCode(f));
    var rest := FCons(FVarBytes(f.reason), FNil);
    if f.app {
      PrintFirst(f.code, rest);
    } else {
      PrintFirst(f.code, FCons(FVarint(f.frameType.GetOr(0)), rest));
      PrintFirst(f.frameType.GetOr(0), rest);
    }
    PrintData(true, f.reason);
  }

  lemma DatagramLayout(f: Frame)
    requires f.Datagram? && Encodable(f)
    ensures Wire(f) == FrameLayout(f)
  {
    hide EncV, Print, AllPrintable, V, Encodable, Wire;
    TypeAndFields(f);
    ShortTypes(TypeCode(f));
    PrintData(HasLen(f), f.data);
  }

  lemma ParametersLayout(f: Frame)
    requires f.QxTransportParameters? && Encodable(f)
    ensures Wire(f) == FrameLayout(f)
  {
    hide EncV, Print, AllPrintable, V, Wire, TpsBytes, BlockLayout, ParamsEncodable;
    TypeAndFields(f);
    LongTypes();
    BlockBytesLayout(f.params);
    PrintData(true, TpsBytes(f.params));
  }

  lemma PrintByte(n: int, rest: FieldList)
    requires AllPrintable(FCons(FByte(n), rest))
    ensures AllPrintable(rest) && Print(FCons(FByte(n), rest)) == Byte(n) + Print(rest)
    ensures Print(FNil) == []
  {
    hide EncV;
  }

  lemma PriorityLayout(f: Frame)
    requires f.PriorityUpdate? && Encodable(f)
    ensures Wire(f) == FrameLayout(f)
  {
    hide EncV, Print, AllPrintable, V, Wire;
    TypeAndFields(f);
    FourByteTypes();
    var byte := FByte(PriorityByte(f.urgency, f.incremental));
    PrintFirst(f.id, FCons(FVarint(f.seqno), FCons(byte, FNil)));
    PrintFirst(f.seqno, FCons(byte, FNil));
    PrintByte(PriorityByte(f.urgency, f.incremental), FNil);
    Last(Byte(PriorityByte(f.urgency, f.incremental)));
  }

  lemma PrintLocator(bs: Bytes, rest: FieldList)
    requires AllPrintable(FCons(FByteBytes(bs), rest))
    ensures AllPrintable(rest) && Print(FCons(FByteBytes(bs), rest)) == (Byte(|bs|) + bs) + Print(rest)
  {
    hide EncV;
  }

  lemma PrintFixed(bs: Bytes, rest: FieldList)
    requires AllPrintable(FCons(FFixed(bs), rest))
    ensures AllPrintable(rest) && Print(FCons(FFixed(bs), rest)) == bs + Print(rest)
    ensures Print(FNil) == []
  {
    hide EncV;
  }

  lemma JoinLayout(f: Frame)
    requires f.PipeJoin? && Encodable(f)
    ensures Wire(f) == FrameLayout(f)
  {
    hide EncV, Print, AllPrintable, V, Byte, Encodable, Wire;
    TypeAndFields(f);
    FourByteTypes();
    var j, fs := f.join, JoinFields(f.join);
    PrintLocator(j.locator, fs.tail);
    PrintFirst(j.pipe, fs.tail.tail);
    PrintByte(JoinFlags(j), fs.tail.tail.tail);
    PrintFirst(j.fateGroup, fs.tail.tail.tail.tail);
    PrintFirst(j.priority, fs.tail.tail.tail.tail.tail);
    PrintFixed(j.token, FNil);
    Last(j.token);
    assert JoinFlags(j) == JoinFlagByte(j);
  }

  lemma {:induction false} EntriesLayout(es: seq<AckEntry>)
    requires EntriesInRange(es)
    ensures PrintEntries(es) == AckLayout(es)
  {
    hide EncV;
    if es == [] {
    } else {
      EntriesLayout(es[1..]);
    }
  }

  lemma PrintAcks(es: seq<AckEntry>)
    requires AllPrintable(FCons(FEntries(es), FNil))
    ensures Print(FCons(FEntries(es), FNil)) == V(|es|) + AckLayout(es)
  {
    hide EncV, PrintEntries, AckLayout;
    EntriesLayout(es);
    assert Print(FNil) == [];
    Last(EncV(|es|) + PrintEntries(es));
  }

  lemma AckBytesLayout(f: Frame)
    requires f.PipeAck? && Encodable(f)
    ensures Wire(f) == FrameLayout(f)
  {
    hide EncV, AllPrintable, V, Encodable, Wire, PrintEntries, AckLayout, EntriesInRange;
    TypeAndFields(f);
    FourByteTypes();
    PrintAcks(f.entries);
  }

  lemma LaneLayout(f: Frame)
    requires f.PipeLane? && Encodable(f)
    ensures Wire(f) == FrameLayout(f)
  {
    hide EncV, Print, AllPrintable, V, V2, Wire;
    TypeAndFields(f);
    PipeTypes();
    PrintFixed(f.laneKey, V2(f.pipe, f.lane));
    PrintVarints(0, 0, f.pipe, f.lane);
  }

  lemma PaddingLayout(n: int)
    ensures Wire(Padding(n)) == FrameLayout(Padding(n))
  {
    assert |Zeros(n)| == |FrameLayout(Padding(n))|;
  }

  lemma {:induction false} RepeatIsTimes(b: Bytes, n: nat)
    ensures Times(b, n) == RepeatLayout(n, b)
  {
    if n == 0 {
    } else {
      RepeatIsTimes(b, n - 1);
    }
  }

  lemma SingleLayout(f: Frame)
    requires !f.Repeat? && Encodable(f)
    ensures Wire(f) == FrameLayout(f)
  {
    hide Wire, FrameLayout, Encodable;
    match f
    case Padding(n) => PaddingLayout(n);
    case ResetStream(_, _, _) => ResetLayout(f);
    case ResetStreamAt(_, _, _, _) => ResetLayout(f);
    case StopSending(_, _) => StreamLimitLayout(f);
    case Stream(_, _, _, _, _, _) => StreamBytes(f);
    case MaxData(_) => LimitLayout(f);
    case MaxStreamData(_, _) => StreamLimitLayout(f);
    case MaxStreams(_, _) => LimitLayout(f);
    case DataBlocked(_) => LimitLayout(f);
    case StreamDataBlocked(_, _) => StreamLimitLayout(f);
    case StreamsBlocked(_, _) => LimitLayout(f);
    case ConnectionClose(_, _, _, _) => CloseLayout(f);
    case Datagram(_, _) => DatagramLayout(f);
    case QxTransportParameters(_) => ParametersLayout(f);
    case QxPing(_, _) => SessionLayout(f);
    case Goaway(_, _, _) => SessionLayout(f);
    case PriorityUpdate(_, _, _, _) => PriorityLayout(f);
    case PipeJoin(_) => JoinLayout(f);
    case PipeAck(_) => AckBytesLayout(f);
    case PipeLane(_, _, _) => LaneLayout(f);
    case PipePing => PipeLayout(f);
    case PipeAbandon(_, _) => PipeLayout(f);
    case PipeStatus(_, _, _, _) => PipeLayout(f);
  }

  /** encode_frame writes these bytes for every frame that it can encode. */
  lemma {:induction false} WireLayout(f: Frame)
    requires Encodable(f)
    ensures Wire(f) == FrameLayout(f)
  {
    match f
    case Repeat(n, g) =>
      WireLayout(g);
      if n > 0 {
        RepeatIsTimes(Wire(g), n - 1);
      }
    case _ => SingleLayout(f);
  }
}
