/** Frames, and the frame codec as a grammar: which fields each kind has, and which field
    values it accepts (tools/zmuxwire/frames.py lines 38-56 and 225-523). */
module Frames {
  import opened Base
  import opened Varint
  import opened Registry
  import opened Fields
  import opened TransportParameters

  datatype Direction = Up | Down | Bidi

  datatype PipeState = Available | Standby

  datatype Join = Join(locator: Bytes, pipe: int, direction: Direction, carrierBound: bool,
                       standby: bool, fateGroup: int, priority: int, token: Bytes)

  /** A frame dict. A key that the encoder reads with a default is a plain field holding that
      default; `hasOff` and `hasLen` stay optional because their defaults depend on the frame. */
  datatype Frame =
    | Padding(count: int)
    | ResetStream(id: int, code: int, finalSize: int)
    | ResetStreamAt(id: int, code: int, finalSize: int, reliableSize: int)
    | StopSending(id: int, code: int)
    | Stream(id: int, off: int, hasOff: Option<bool>, hasLen: Option<bool>, fin: bool, data: Bytes)
    | MaxData(max: int)
    | MaxStreamData(id: int, max: int)
    | MaxStreams(bidi: bool, max: int)
    | DataBlocked(limit: int)
    | StreamDataBlocked(id: int, limit: int)
    | StreamsBlocked(bidi: bool, limit: int)
    | ConnectionClose(app: bool, code: int, frameType: Option<int>, reason: Bytes)
    | Datagram(hasLen: Option<bool>, data: Bytes)
    | QxTransportParameters(params: seq<Param>)
    | QxPing(response: bool, seqno: int)
    | Goaway(maxBidi: int, maxUni: int, code: int)
    | PriorityUpdate(id: int, seqno: int, urgency: int, incremental: bool)
    | PipeJoin(join: Join)
    | PipeAck(entries: seq<AckEntry>)
    | PipeLane(laneKey: Bytes, pipe: int, lane: int)
    | PipePing
    | PipeAbandon(pipe: int, code: int)
    | PipeStatus(pipe: int, seqno: int, status: PipeState, priority: int)
    | Repeat(times: int, frame: Frame)

  const MAX_STREAM_COUNT: int := 0x1000_0000_0000_0000

  // ---------------------------------------------------------------- frame types

  function HasOff(f: Frame): bool
    requires f.Stream?
  {
    f.hasOff.GetOr(f.off > 0)
  }

  function HasLen(f: Frame): bool
    requires f.Stream? || f.Datagram?
  {
    f.hasLen.GetOr(true)
  }

  /** The frame takes all bytes up to the end of its record. */
  predicate TakesRest(f: Frame) {
    (f.Stream? || f.Datagram?) && !HasLen(f)
  }

  function Bit(on: bool, value: nat): nat {
    if on then value else 0
  }

  function KindOf(f: Frame): FrameKind
    requires !f.Repeat?
  {
    match f
    case Padding(_) => PADDING
    case ResetStream(_, _, _) => RESET_STREAM
    case ResetStreamAt(_, _, _, _) => RESET_STREAM_AT
    case StopSending(_, _) => STOP_SENDING
    case Stream(_, _, _, _, _, _) => STREAM
    case MaxData(_) => MAX_DATA
    case MaxStreamData(_, _) => MAX_STREAM_DATA
    case MaxStreams(_, _) => MAX_STREAMS
    case DataBlocked(_) => DATA_BLOCKED
    case StreamDataBlocked(_, _) => STREAM_DATA_BLOCKED
    case StreamsBlocked(_, _) => STREAMS_BLOCKED
    case ConnectionClose(_, _, _, _) => CONNECTION_CLOSE
    case Datagram(_, _) => DATAGRAM
    case QxTransportParameters(_) => QX_TRANSPORT_PARAMETERS
    case QxPing(_, _) => QX_PING
    case Goaway(_, _, _) => GOAWAY
    case PriorityUpdate(_, _, _, _) => PRIORITY_UPDATE
    case PipeJoin(_) => PIPE_JOIN
    case PipeAck(_) => PIPE_ACK
    case PipeLane(_, _, _) => PIPE_LANE
    case PipePing => PIPE_PING
    case PipeAbandon(_, _) => PIPE_ABANDON
    case PipeStatus(_, _, _, _) => PIPE_STATUS
  }

  /** type_code: the numeric type, with the flag bits that some kinds carry in it. */
  function TypeCode(f: Frame): vint
    requires !f.Repeat?
  {
    match f
    case Padding(_) => 0x00
    case ResetStream(_, _, _) => 0x04
    case ResetStreamAt(_, _, _, _) => 0x24
    case StopSending(_, _) => 0x05
    case Stream(_, _, _, _, fin, _) => 0x08 + Bit(HasOff(f), 4) + Bit(HasLen(f), 2) + Bit(fin, 1)
    case MaxData(_) => 0x10
    case MaxStreamData(_, _) => 0x11
    case MaxStreams(bidi, _) => if bidi then 0x12 else 0x13
    case DataBlocked(_) => 0x14
    case StreamDataBlocked(_, _) => 0x15
    case StreamsBlocked(bidi, _) => if bidi then 0x16 else 0x17
    case ConnectionClose(app, _, _, _) => if app then 0x1D else 0x1C
    case Datagram(_, _) => if HasLen(f) then 0x31 else 0x30
    case QxTransportParameters(_) => QX_TRANSPORT_PARAMETERS_TYPE
    case QxPing(response, _) => if response then QX_PING_RESPONSE_TYPE else QX_PING_REQUEST_TYPE
    case Goaway(_, _, _) => GOAWAY_TYPE
    case PriorityUpdate(_, _, _, _) => PRIORITY_UPDATE_TYPE
    case PipeJoin(_) => PIPE_JOIN_TYPE
    case PipeAck(_) => PIPE_ACK_TYPE
    case PipeLane(_, _, _) => PIPE_LANE_TYPE
    case PipePing => PIPE_PING_TYPE
    case PipeAbandon(_, _) => PIPE_ABANDON_TYPE
    case PipeStatus(_, _, _, _) => PIPE_STATUS_TYPE
  }

  // ---------------------------------------------------------------- fields of each kind

  function V1(a: int): FieldList { FCons(FVarint(a), FNil) }
  function V2(a: int, b: int): FieldList { FCons(FVarint(a), V1(b)) }
  function V3(a: int, b: int, c: int): FieldList { FCons(FVarint(a), V2(b, c)) }
  function V4(a: int, b: int, c: int, d: int): FieldList { FCons(FVarint(a), V3(b, c, d)) }

  function DirectionCode(d: Direction): nat {
    match d case Up => 0 case Down => 1 case Bidi => 2
  }

  function JoinFlags(j: Join): byte {
    DirectionCode(j.direction) + Bit(j.carrierBound, 0x04) + Bit(j.standby, 0x08)
  }

  function JoinFields(j: Join): FieldList {
    FCons(FByteBytes(j.locator), FCons(FVarint(j.pipe), FCons(FByte(JoinFlags(j)),
    FCons(FVarint(j.fateGroup), FCons(FVarint(j.priority), FCons(FFixed(j.token), FNil))))))
  }

  function PriorityByte(urgency: int, incremental: bool): int {
    urgency * 0x20 + Bit(incremental, 0x10)
  }

  function StatusCode(s: PipeState): nat {
    match s case Available => 0 case Standby => 1
  }

  function DataField(hasLen: bool, data: Bytes): Field {
    if hasLen then FVarBytes(data) else FRest(data)
  }

  function FieldsOf(f: Frame): FieldList
    requires !f.Repeat?
    requires f.QxTransportParameters? ==> ParamsEncodable(f.params)
  {
    match f
    case Padding(_) => FNil
    case ResetStream(id, code, finalSize) => V3(id, code, finalSize)
    case ResetStreamAt(id, code, finalSize, reliableSize) => V4(id, code, finalSize, reliableSize)
    case StopSending(id, code) => V2(id, code)
    case Stream(id, off, _, _, _, data) =>
      var rest := FCons(DataField(HasLen(f), data), FNil);
      FCons(FVarint(id), if HasOff(f) then FCons(FVarint(off), rest) else rest)
    case MaxData(max) => V1(max)
    case MaxStreamData(id, max) => V2(id, max)
    case MaxStreams(_, max) => V1(max)
    case DataBlocked(limit) => V1(limit)
    case StreamDataBlocked(id, limit) => V2(id, limit)
    case StreamsBlocked(_, limit) => V1(limit)
    case ConnectionClose(app, code, frameType, reason) =>
      var rest := FCons(FVarBytes(reason), FNil);
      FCons(FVarint(code), if app then rest else FCons(FVarint(frameType.GetOr(0)), rest))
    case Datagram(_, data) => FCons(DataField(HasLen(f), data), FNil)
    case QxTransportParameters(params) => FCons(FVarBytes(TpsBytes(params)), FNil)
    case QxPing(_, seqno) => V1(seqno)
    case Goaway(maxBidi, maxUni, code) => V3(maxBidi, maxUni, code)
    case PriorityUpdate(id, seqno, urgency, incremental) =>
      FCons(FVarint(id), FCons(FVarint(seqno), FCons(FByte(PriorityByte(urgency, incremental)), FNil)))
    case PipeJoin(join) => JoinFields(join)
    case PipeAck(entries) => FCons(FEntries(entries), FNil)
    case PipeLane(laneKey, pipe, lane) => FCons(FFixed(laneKey), V2(pipe, lane))
    case PipePing => FNil
    case PipeAbandon(pipe, code) => V2(pipe, code)
    case PipeStatus(pipe, seqno, status, priority) => V4(pipe, seqno, StatusCode(status), priority)
  }

  /** encode_frame does not raise. */
  function Encodable(f: Frame): (r: bool)
    ensures r && f.QxTransportParameters? ==> ParamsEncodable(f.params)
    ensures r && !f.Repeat? && !f.Padding? ==> AllPrintable(FieldsOf(f))
  {
    match f
    case Padding(_) => true
    case Repeat(_, g) => Encodable(g)
    case QxTransportParameters(params) => ParamsEncodable(params) && AllPrintable(FieldsOf(f))
    case PriorityUpdate(_, _, urgency, _) => 0 <= urgency <= 7 && AllPrintable(FieldsOf(f))
    case PipeLane(laneKey, _, _) => |laneKey| == LANE_KEY_BYTES && AllPrintable(FieldsOf(f))
    case _ => AllPrintable(FieldsOf(f))
  }

  /** Python's `b * n` for bytes. */
  function Times(b: Bytes, n: int): Bytes {
    if n <= 0 then [] else b + Times(b, n - 1)
  }

  function Zeros(n: int): (b: Bytes)
    ensures |b| == if n > 0 then n else 0
    ensures forall i :: 0 <= i < |b| ==> b[i] == 0
  {
    if n <= 0 then [] else [0] + Zeros(n - 1)
  }

  /** The bytes of a frame. */
  function Wire(f: Frame): Bytes
    requires Encodable(f)
  {
    match f
    case Padding(n) => Zeros(n)
    case Repeat(n, g) => Times(Wire(g), n)
    case _ => EncV(TypeCode(f)) + Print(FieldsOf(f))
  }

  // ---------------------------------------------------------------- decoding

  function S1(): Shape { Then(KVarint, End) }
  function S2(): Shape { Then(KVarint, S1()) }
  function S3(): Shape { Then(KVarint, S2()) }
  function S4(): Shape { Then(KVarint, S3()) }

  function DataShape(hasLen: bool): Shape {
    Then(if hasLen then KVarBytes else KRest, End)
  }

  function JoinShape(): Shape {
    Then(KByteBytes, Then(KVarint, Then(KByte, Then(KVarint, Then(KVarint,
    Then(KFixed(JOIN_TOKEN_BYTES), End))))))
  }

  predicate OffBit(code: int) { code % 8 >= 4 }
  predicate LenBit(code: int) { code % 4 >= 2 }
  predicate FinBit(code: int) { code % 2 >= 1 }

  /** The fields that follow the type `code` of a frame of this kind. */
  function ShapeOf(kind: FrameKind, code: vint): Shape {
    match kind
    case PADDING => End
    case RESET_STREAM => S3()
    case RESET_STREAM_AT => S4()
    case STOP_SENDING => S2()
    case STREAM =>
      Then(KVarint, if OffBit(code) then Then(KVarint, DataShape(LenBit(code))) else DataShape(LenBit(code)))
    case MAX_DATA => S1()
    case MAX_STREAM_DATA => S2()
    case MAX_STREAMS => S1()
    case DATA_BLOCKED => S1()
    case STREAM_DATA_BLOCKED => S2()
    case STREAMS_BLOCKED => S1()
    case CONNECTION_CLOSE =>
      Then(KVarint, if code == 0x1D then DataShape(true) else Then(KVarint, DataShape(true)))
    case DATAGRAM => DataShape(code == 0x31)
    case QX_TRANSPORT_PARAMETERS => DataShape(true)
    case QX_PING => S1()
    case GOAWAY => S3()
    case PRIORITY_UPDATE => Then(KVarint, Then(KVarint, Then(KByte, End)))
    case PIPE_JOIN => JoinShape()
    case PIPE_ACK => Then(KEntries, End)
    case PIPE_LANE => Then(KFixed(LANE_KEY_BYTES), S2())
    case PIPE_PING => End
    case PIPE_ABANDON => S2()
    case PIPE_STATUS => S4()
  }

  function Check(ok: bool, f: Frame): Result<Frame> {
    if ok then Ok(f) else Err(FrameEncodingError)
  }

  /** Entries in strictly increasing (Pipe ID, Lane) order, each before the next. */
  predicate EntryBefore(a: AckEntry, b: AckEntry) {
    a.pipe < b.pipe || (a.pipe == b.pipe && a.lane < b.lane)
  }

  predicate IncreasingEntries(es: seq<AckEntry>) {
    forall i :: 0 < i < |es| ==> EntryBefore(es[i - 1], es[i])
  }

  /** Every entry before every later one, and so no (Pipe ID, Lane) twice. */
  predicate OrderedEntries(es: seq<AckEntry>) {
    forall i, j :: 0 <= i < j < |es| ==> EntryBefore(es[i], es[j])
  }

  lemma {:induction false} BeforeAllLater(es: seq<AckEntry>, i: nat, j: nat)
    requires IncreasingEntries(es) && i < j < |es|
    ensures EntryBefore(es[i], es[j])
    decreases j
  {
    if i < j - 1 {
      BeforeAllLater(es, i, j - 1);
    }
  }

  /** Comparing neighbours is comparing all entries. */
  lemma IncreasingIsOrdered(es: seq<AckEntry>)
    ensures IncreasingEntries(es) <==> OrderedEntries(es)
  {
    if IncreasingEntries(es) {
      forall i, j | 0 <= i < j < |es| ensures EntryBefore(es[i], es[j]) {
        BeforeAllLater(es, i, j);
      }
    }
  }

  function BuildStream(code: vint, id: int, off: int, data: Bytes): Result<Frame> {
    Check(off + |data| <= MAX_VARINT,
          Stream(id, off, Some(OffBit(code)), Some(LenBit(code)), FinBit(code), data))
  }

  function BuildJoin(locator: Bytes, pipe: int, flags: int, fateGroup: int, priority: int, token: Bytes)
    : Result<Frame>
  {
    var d := flags % 4;
    Check(1 <= |locator| <= MAX_LOCATOR_BYTES && d != 3 && flags < 0x10,
          PipeJoin(Join(locator, pipe, if d == 0 then Up else if d == 1 then Down else Bidi,
                        flags % 8 >= 4, flags % 16 >= 8, fateGroup, priority, token)))
  }

  // The frame that parsed fields make, or the error when their values are not acceptable:
  // kinds of QUIC that hold only varints, those of QMux and zmux, kinds that hold a part with a
  // length, and the others.

  function BuildCore(kind: FrameKind, code: vint, fs: FieldList): Result<Frame> {
    match kind
    case RESET_STREAM => (
      match fs
      case FCons(FVarint(id), FCons(FVarint(c), FCons(FVarint(size), FNil))) =>
        Ok(ResetStream(id, c, size))
      case _ => Err(FrameEncodingError))
    case RESET_STREAM_AT => (
      match fs
      case FCons(FVarint(id), FCons(FVarint(c), FCons(FVarint(size), FCons(FVarint(reliable), FNil)))) =>
        Check(reliable <= size, ResetStreamAt(id, c, size, reliable))
      case _ => Err(FrameEncodingError))
    case STOP_SENDING => (
      match fs
      case FCons(FVarint(id), FCons(FVarint(c), FNil)) =>
        Ok(StopSending(id, c))
      case _ => Err(FrameEncodingError))
    case MAX_DATA => (
      match fs
      case FCons(FVarint(max), FNil) =>
        Ok(MaxData(max))
      case _ => Err(FrameEncodingError))
    case MAX_STREAM_DATA => (
      match fs
      case FCons(FVarint(id), FCons(FVarint(max), FNil)) =>
        Ok(MaxStreamData(id, max))
      case _ => Err(FrameEncodingError))
    case MAX_STREAMS => (
      match fs
      case FCons(FVarint(max), FNil) =>
        Check(max <= MAX_STREAM_COUNT, MaxStreams(code == 0x12, max))
      case _ => Err(FrameEncodingError))
    case DATA_BLOCKED => (
      match fs
      case FCons(FVarint(limit), FNil) =>
        Ok(DataBlocked(limit))
      case _ => Err(FrameEncodingError))
    case STREAM_DATA_BLOCKED => (
      match fs
      case FCons(FVarint(id), FCons(FVarint(limit), FNil)) =>
        Ok(StreamDataBlocked(id, limit))
      case _ => Err(FrameEncodingError))
    case STREAMS_BLOCKED => (
      match fs
      case FCons(FVarint(limit), FNil) =>
        Check(limit <= MAX_STREAM_COUNT, StreamsBlocked(code == 0x16, limit))
      case _ => Err(FrameEncodingError))
    case _ => Err(FrameEncodingError)
  }

  function BuildControl(kind: FrameKind, code: vint, fs: FieldList): Result<Frame> {
    match kind
    case QX_PING => (
      match fs
      case FCons(FVarint(seqno), FNil) =>
        Ok(QxPing(code == QX_PING_RESPONSE_TYPE, seqno))
      case _ => Err(FrameEncodingError))
    case GOAWAY => (
      match fs
      case FCons(FVarint(bidi), FCons(FVarint(uni), FCons(FVarint(c), FNil))) =>
        Check(bidi <= MAX_STREAM_COUNT && uni <= MAX_STREAM_COUNT, Goaway(bidi, uni, c))
      case _ => Err(FrameEncodingError))
    case PIPE_PING => (
      match fs
      case FNil =>
        Ok(PipePing)
      case _ => Err(FrameEncodingError))
    case PIPE_ABANDON => (
      match fs
      case FCons(FVarint(pipe), FCons(FVarint(c), FNil)) =>
        Ok(PipeAbandon(pipe, c))
      case _ => Err(FrameEncodingError))
    case PIPE_STATUS => (
      match fs
      case FCons(FVarint(pipe), FCons(FVarint(seqno), FCons(FVarint(st), FCons(FVarint(priority), FNil)))) =>
        Check(st <= 1, PipeStatus(pipe, seqno, if st == 0 then Available else Standby, priority))
      case _ => Err(FrameEncodingError))
    case _ => Err(FrameEncodingError)
  }

  function BuildData(kind: FrameKind, code: vint, fs: FieldList): Result<Frame> {
    match kind
    case STREAM => (
      match fs
      case FCons(FVarint(id), FCons(FVarint(off), FCons(FVarBytes(data), FNil))) =>
        BuildStream(code, id, off, data)
      case FCons(FVarint(id), FCons(FVarint(off), FCons(FRest(data), FNil))) =>
        BuildStream(code, id, off, data)
      case FCons(FVarint(id), FCons(FVarBytes(data), FNil)) =>
        BuildStream(code, id, 0, data)
      case FCons(FVarint(id), FCons(FRest(data), FNil)) =>
        BuildStream(code, id, 0, data)
      case _ => Err(FrameEncodingError))
    case CONNECTION_CLOSE => (
      match fs
      case FCons(FVarint(c), FCons(FVarBytes(reason), FNil)) =>
        Ok(ConnectionClose(true, c, None, reason))
      case FCons(FVarint(c), FCons(FVarint(t), FCons(FVarBytes(reason), FNil))) =>
        Ok(ConnectionClose(false, c, Some(t), reason))
      case _ => Err(FrameEncodingError))
    case DATAGRAM => (
      match fs
      case FCons(FVarBytes(data), FNil) =>
        Ok(Datagram(Some(true), data))
      case FCons(FRest(data), FNil) =>
        Ok(Datagram(Some(false), data))
      case _ => Err(FrameEncodingError))
    case QX_TRANSPORT_PARAMETERS => (
      match fs
      case FCons(FVarBytes(block), FNil) =>
        var params :- DecodeTpsSpec(block);
        Ok(QxTransportParameters(params))
      case _ => Err(FrameEncodingError))
    case _ => Err(FrameEncodingError)
  }

  function BuildOther(kind: FrameKind, code: vint, fs: FieldList): Result<Frame> {
    match kind
    case PRIORITY_UPDATE => (
      match fs
      case FCons(FVarint(id), FCons(FVarint(seqno), FCons(FByte(b), FNil))) =>
        Check(b % 16 == 0, PriorityUpdate(id, seqno, b / 32, b % 32 >= 16))
      case _ => Err(FrameEncodingError))
    case PIPE_JOIN => (
      match fs
      case FCons(FByteBytes(locator), FCons(FVarint(pipe), FCons(FByte(flags),
           FCons(FVarint(fateGroup), FCons(FVarint(priority), FCons(FFixed(token), FNil)))))) =>
        BuildJoin(locator, pipe, flags, fateGroup, priority, token)
      case _ => Err(FrameEncodingError))
    case PIPE_ACK => (
      match fs
      case FCons(FEntries(es), FNil) =>
        Check(es != [] && IncreasingEntries(es), PipeAck(es))
      case _ => Err(FrameEncodingError))
    case PIPE_LANE => (
      match fs
      case FCons(FFixed(key), FCons(FVarint(pipe), FCons(FVarint(lane), FNil))) =>
        Ok(PipeLane(key, pipe, lane))
      case _ => Err(FrameEncodingError))
    case _ => Err(FrameEncodingError)
  }

  predicate IsControl(kind: FrameKind) {
    kind == QX_PING || kind == GOAWAY || kind == PIPE_PING || kind == PIPE_ABANDON || kind == PIPE_STATUS
  }

  predicate IsData(kind: FrameKind) {
    kind == STREAM || kind == CONNECTION_CLOSE || kind == DATAGRAM || kind == QX_TRANSPORT_PARAMETERS
  }

  predicate IsOther(kind: FrameKind) {
    kind == PRIORITY_UPDATE || kind == PIPE_JOIN || kind == PIPE_ACK || kind == PIPE_LANE
  }

  predicate IsCore(kind: FrameKind) {
    !kind.PADDING? && !IsControl(kind) && !IsData(kind) && !IsOther(kind)
  }

  function Build(kind: FrameKind, code: vint, fs: FieldList): Result<Frame> {
    if IsData(kind) then BuildData(kind, code, fs)
    else if IsOther(kind) then BuildOther(kind, code, fs)
    else if IsControl(kind) then BuildControl(kind, code, fs)
    else BuildCore(kind, code, fs)
  }

  /** The body after the type: its fields, then what they mean. The number is the body's length. */
  function DecodeBody(kind: FrameKind, code: vint, b: Bytes): (r: Result<(Frame, nat)>)
    ensures r.Ok? ==> r.value.1 <= |b|
  {
    match Parse(ShapeOf(kind, code), b)
    case None => Err(FrameEncodingError)
    case Some((fs, n)) =>
      var f :- Build(kind, code, fs);
      Ok((f, n))
  }

  function ZeroRun(b: Bytes): (n: nat)
    ensures n <= |b|
    ensures forall i :: 0 <= i < n ==> b[i] == 0
    ensures n < |b| ==> b[n] != 0
  {
    if b != [] && b[0] == 0 then 1 + ZeroRun(b[1..]) else 0
  }

  /** `enabled` is None when everything is negotiated. */
  predicate Negotiated(kind: FrameKind, enabled: Option<set<Gate>>) {
    enabled.None? || GatesOf(kind) == {} || GatesOf(kind) * enabled.value != {}
  }

  /** The error for a frame type that was not negotiated. */
  function GateError(kind: FrameKind): Code {
    if kind == DATAGRAM then ProtocolViolation else FrameEncodingError
  }

  predicate WithinLimit(f: Frame, n: nat, limit: Option<int>) {
    f.Datagram? && limit.Some? ==> n <= limit.value
  }

  /** decode_frame on the slice that holds the frame: the frame and the bytes it takes. */
  function DecodeFrameSpec(b: Bytes, enabled: Option<set<Gate>>, limit: Option<int>): (r: Result<(Frame, nat)>)
    ensures r.Ok? ==> 1 <= r.value.1 <= |b|
  {
    match DecV(b)
    case None => Err(FrameEncodingError)
    case Some((code, w)) =>
      if w != VarintLen(code) then Err(ProtocolViolation)
      else if code == 0 then
        var n := 1 + ZeroRun(b[1..]);
        Ok((Padding(n), n))
      else
        match FrameByType(code)
        case None => Err(FrameEncodingError)
        case Some(Prohibited) => Err(FrameEncodingError)
        case Some(Active(kind)) =>
          if !Negotiated(kind, enabled) then Err(GateError(kind))
          else
            var (f, n) :- DecodeBody(kind, code, b[w..]);
            if WithinLimit(f, w + n, limit) then Ok((f, w + n)) else Err(ProtocolViolation)
  }

  // ---------------------------------------------------------------- what the decoder can return

  function FrameWellFormed(f: Frame): (r: bool)
    ensures r ==> Encodable(f) && !f.Repeat? && (f.Padding? ==> f.count > 0)
  {
    Encodable(f) &&
    match f
    case Padding(n) => n > 0
    case Repeat(_, _) => false
    case ResetStreamAt(_, _, finalSize, reliableSize) => reliableSize <= finalSize
    case Stream(_, off, hasOff, hasLen, _, data) =>
      hasOff.Some? && hasLen.Some? && IsVarint(off) && (off != 0 ==> hasOff.value) && off + |data| <= MAX_VARINT
    case MaxStreams(_, max) => max <= MAX_STREAM_COUNT
    case StreamsBlocked(_, limit) => limit <= MAX_STREAM_COUNT
    case ConnectionClose(app, _, frameType, _) => app <==> frameType.None?
    case Datagram(hasLen, _) => hasLen.Some?
    case QxTransportParameters(params) => TpsWellFormed(params)
    case Goaway(maxBidi, maxUni, _) => maxBidi <= MAX_STREAM_COUNT && maxUni <= MAX_STREAM_COUNT
    case PipeJoin(j) => 1 <= |j.locator| <= MAX_LOCATOR_BYTES && |j.token| == JOIN_TOKEN_BYTES
    case PipeAck(es) => es != [] && IncreasingEntries(es)
    case _ => true
  }

  lemma KindTable(f: Frame)
    requires !f.Repeat?
    ensures FrameByType(TypeCode(f)) == Some(Active(KindOf(f)))
  {
  }

  lemma VarintShapes(a: int, b: int, c: int, d: int)
    ensures HasShape(End, FNil) && HasShape(S1(), V1(d)) && HasShape(S2(), V2(c, d))
    ensures HasShape(S3(), V3(b, c, d)) && HasShape(S4(), V4(a, b, c, d))
  {
    assert HasShape(S1(), V1(d));
    assert HasShape(S2(), V2(c, d));
    assert HasShape(S3(), V3(b, c, d));
  }

  lemma CoreShape(f: Frame)
    requires FrameWellFormed(f) && IsCore(KindOf(f))
    ensures HasShape(ShapeOf(KindOf(f), TypeCode(f)), FieldsOf(f))
  {
    hide TypeCode, Encodable, FrameWellFormed, HasShape, V1, V2, V3, V4, S1, S2, S3, S4;
    match f
    case ResetStream(id, code, finalSize) => VarintShapes(0, id, code, finalSize);
    case ResetStreamAt(id, code, finalSize, reliableSize) => VarintShapes(id, code, finalSize, reliableSize);
    case StopSending(id, code) => VarintShapes(0, 0, id, code);
    case MaxData(max) => VarintShapes(0, 0, 0, max);
    case MaxStreamData(id, max) => VarintShapes(0, 0, id, max);
    case MaxStreams(_, max) => VarintShapes(0, 0, 0, max);
    case DataBlocked(limit) => VarintShapes(0, 0, 0, limit);
    case StreamDataBlocked(id, limit) => VarintShapes(0, 0, id, limit);
    case StreamsBlocked(_, limit) => VarintShapes(0, 0, 0, limit);
  }

  lemma ControlShape(f: Frame)
    requires FrameWellFormed(f) && IsControl(KindOf(f))
    ensures HasShape(ShapeOf(KindOf(f), TypeCode(f)), FieldsOf(f))
  {
    hide TypeCode, Encodable, FrameWellFormed, HasShape, V1, V2, V3, V4, S1, S2, S3, S4;
    match f
    case QxPing(_, seqno) => VarintShapes(0, 0, 0, seqno);
    case Goaway(maxBidi, maxUni, code) => VarintShapes(0, maxBidi, maxUni, code);
    case PipePing => VarintShapes(0, 0, 0, 0);
    case PipeAbandon(pipe, code) => VarintShapes(0, 0, pipe, code);
    case PipeStatus(pipe, seqno, status, priority) => VarintShapes(pipe, seqno, StatusCode(status), priority);
  }

  lemma StreamBits(off: bool, len: bool, fin: bool)
    ensures var code := 0x08 + Bit(off, 4) + Bit(len, 2) + Bit(fin, 1);
            OffBit(code) == off && LenBit(code) == len && FinBit(code) == fin
  {
  }

  lemma StreamOwnFields(f: Frame)
    requires FrameWellFormed(f) && f.Stream?
    ensures HasShape(ShapeOf(STREAM, TypeCode(f)), FieldsOf(f))
    ensures Build(STREAM, TypeCode(f), FieldsOf(f)) == Ok(f)
  {
    StreamBits(HasOff(f), HasLen(f), f.fin);
    assert HasShape(DataShape(HasLen(f)), FCons(DataField(HasLen(f), f.data), FNil));
  }

  lemma DataFrameShape(f: Frame)
    requires FrameWellFormed(f) && IsData(KindOf(f))
    ensures HasShape(ShapeOf(KindOf(f), TypeCode(f)), FieldsOf(f))
  {
    hide TpsBytes, TpsWellFormed, Encodable;
    match f
    case Stream(_, _, _, _, _, _) => StreamOwnFields(f);
    case ConnectionClose(_, _, _, reason) =>
      assert HasShape(DataShape(true), FCons(FVarBytes(reason), FNil));
    case _ =>
  }

  lemma JoinHasShape(j: Join)
    requires |j.token| == JOIN_TOKEN_BYTES
    ensures HasShape(JoinShape(), JoinFields(j))
  {
    var last := FCons(FVarint(j.priority), FCons(FFixed(j.token), FNil));
    assert HasShape(Then(KVarint, Then(KFixed(JOIN_TOKEN_BYTES), End)), last);
    assert HasShape(Then(KByte, Then(KVarint, Then(KVarint, Then(KFixed(JOIN_TOKEN_BYTES), End)))),
                    FCons(FByte(JoinFlags(j)), FCons(FVarint(j.fateGroup), last)));
  }

  lemma OtherShape(f: Frame)
    requires FrameWellFormed(f) && IsOther(KindOf(f))
    ensures HasShape(ShapeOf(KindOf(f), TypeCode(f)), FieldsOf(f))
  {
    hide IncreasingEntries, TypeCode;
    match f
    case PipeJoin(j) => JoinHasShape(j);
    case PriorityUpdate(_, _, urgency, incremental) =>
      assert HasShape(Then(KByte, End), FCons(FByte(PriorityByte(urgency, incremental)), FNil));
    case PipeLane(_, pipe, lane) => VarintShapes(0, 0, pipe, lane);
    case PipeAck(es) => assert HasShape(Then(KEntries, End), FCons(FEntries(es), FNil));
  }

  lemma OwnCore(f: Frame)
    requires FrameWellFormed(f) && IsCore(KindOf(f))
    ensures Build(KindOf(f), TypeCode(f), FieldsOf(f)) == Ok(f)
  {
    hide AllPrintable, Encodable, BuildControl, BuildData, BuildOther;
  }

  lemma OwnControl(f: Frame)
    requires FrameWellFormed(f) && IsControl(KindOf(f))
    ensures Build(KindOf(f), TypeCode(f), FieldsOf(f)) == Ok(f)
  {
    hide AllPrintable, Encodable, BuildCore, BuildData, BuildOther;
  }

  lemma OwnData(f: Frame)
    requires FrameWellFormed(f) && IsData(KindOf(f))
    ensures Build(KindOf(f), TypeCode(f), FieldsOf(f)) == Ok(f)
  {
    hide TpsBytes, DecodeTpsSpec, TpsWellFormed, BuildCore, BuildControl, BuildOther;
    match f
    case QxTransportParameters(params) => TpsRoundTrip(params);
    case Stream(_, _, _, _, _, _) => StreamOwnFields(f);
    case _ =>
  }

  lemma PriorityByteOwn(urgency: int, incremental: bool)
    requires 0 <= urgency <= 7
    ensures var b := PriorityByte(urgency, incremental);
            b % 16 == 0 && b / 32 == urgency && (b % 32 >= 16) == incremental
  {
  }

  lemma OwnJoin(j: Join)
    requires 1 <= |j.locator| <= MAX_LOCATOR_BYTES
    ensures BuildJoin(j.locator, j.pipe, JoinFlags(j), j.fateGroup, j.priority, j.token) == Ok(PipeJoin(j))
  {
    assert JoinFlags(j) % 4 == DirectionCode(j.direction);
  }

  lemma OwnOther(f: Frame)
    requires FrameWellFormed(f) && IsOther(KindOf(f))
    ensures Build(KindOf(f), TypeCode(f), FieldsOf(f)) == Ok(f)
  {
    hide IncreasingEntries, BuildCore, BuildControl, BuildData, BuildJoin, JoinFlags, PriorityByte;
    hide AllPrintable, TypeCode;
    match f
    case PipeJoin(j) => OwnJoin(j);
    case PriorityUpdate(_, _, urgency, incremental) => PriorityByteOwn(urgency, incremental);
    case _ =>
  }

  /** The fields of a well-formed frame have the shape its type announces, and make it again. */
  lemma BuildOwnFields(f: Frame)
    requires FrameWellFormed(f) && !f.Padding?
    ensures HasShape(ShapeOf(KindOf(f), TypeCode(f)), FieldsOf(f))
    ensures Build(KindOf(f), TypeCode(f), FieldsOf(f)) == Ok(f)
  {
    hide Build, ShapeOf, TypeCode, FieldsOf, HasShape, Encodable;
    if IsData(KindOf(f)) {
      DataFrameShape(f);
      OwnData(f);
    } else if IsOther(KindOf(f)) {
      OtherShape(f);
      OwnOther(f);
    } else if IsControl(KindOf(f)) {
      ControlShape(f);
      OwnControl(f);
    } else {
      CoreShape(f);
      OwnCore(f);
    }
  }

  lemma StreamCode(code: vint)
    requires 0x08 <= code <= 0x0F
    ensures code == 0x08 + Bit(OffBit(code), 4) + Bit(LenBit(code), 2) + Bit(FinBit(code), 1)
  {
  }

  lemma StreamFields(code: vint, fs: FieldList)
    requires 0x08 <= code <= 0x0F
    requires HasShape(ShapeOf(STREAM, code), fs) && AllPrintable(fs) && Build(STREAM, code, fs).Ok?
    ensures var f := Build(STREAM, code, fs).value;
            FieldsOf(f) == fs && TypeCode(f) == code && IsVarint(f.off) && (f.off != 0 ==> OffBit(code))
  {
    StreamCode(code);
    var rest := if OffBit(code) then fs.tail.tail else fs.tail;
    assert HasShape(DataShape(LenBit(code)), rest);
  }

  /** encode_join_body does not raise. */
  predicate JoinInRange(j: Join) {
    |j.locator| < 256 && IsVarint(j.pipe) && IsVarint(j.fateGroup) && IsVarint(j.priority)
  }

  lemma JoinPrintable(j: Join)
    ensures AllPrintable(JoinFields(j)) <==> JoinInRange(j)
  {
    var f5 := FCons(FFixed(j.token), FNil);
    assert AllPrintable(FNil);
    assert AllPrintable(f5);
    var f4 := FCons(FVarint(j.priority), f5);
    assert AllPrintable(f4) <==> IsVarint(j.priority);
    var f2 := FCons(FByte(JoinFlags(j)), FCons(FVarint(j.fateGroup), f4));
    assert AllPrintable(f2) <==> IsVarint(j.fateGroup) && AllPrintable(f4);
  }

  lemma Peel(s: Shape, fs: FieldList)
    requires s.Then? && HasShape(s, fs)
    ensures fs.FCons? && HasKind(s.head, fs.head) && HasShape(s.tail, fs.tail)
  {
  }

  lemma PeelPrintable(fs: FieldList)
    requires fs.FCons? && AllPrintable(fs)
    ensures Printable(fs.head) && AllPrintable(fs.tail)
  {
  }

  lemma TokenLength(fs: FieldList)
    requires HasShape(JoinShape(), fs)
    ensures fs.FCons? && fs.tail.FCons? && fs.tail.tail.FCons? && fs.tail.tail.tail.FCons?
    ensures var last := fs.tail.tail.tail.tail;
            last.FCons? && last.tail.FCons? && last.tail.head.FFixed? && |last.tail.head.bs| == JOIN_TOKEN_BYTES
  {
    Peel(JoinShape(), fs);
    Peel(JoinShape().tail, fs.tail);
    Peel(JoinShape().tail.tail, fs.tail.tail);
    Peel(JoinShape().tail.tail.tail, fs.tail.tail.tail);
    Peel(JoinShape().tail.tail.tail.tail, fs.tail.tail.tail.tail);
  }

  // The fields of a frame that was built are the ones it was built from.

  lemma BackCore(kind: FrameKind, code: vint, fs: FieldList)
    requires FrameByType(code) == Some(Active(kind)) && IsCore(kind) && AllPrintable(fs)
    requires BuildCore(kind, code, fs).Ok?
    ensures var f := BuildCore(kind, code, fs).value;
            && FrameWellFormed(f) && !f.Padding? && KindOf(f) == kind && TypeCode(f) == code && FieldsOf(f) == fs
  {
    hide FrameByType, AllPrintable;
    KindCodes(kind, code);
    match fs
    case FCons(FVarint(a), FNil) =>
      match kind {
        case MAX_DATA => assert BuildCore(kind, code, fs) == Ok(MaxData(a));
        case MAX_STREAMS => assert BuildCore(kind, code, fs) == Ok(MaxStreams(code == 0x12, a));
        case DATA_BLOCKED => assert BuildCore(kind, code, fs) == Ok(DataBlocked(a));
        case STREAMS_BLOCKED => assert BuildCore(kind, code, fs) == Ok(StreamsBlocked(code == 0x16, a));
        case _ =>
      }
    case FCons(FVarint(a), FCons(FVarint(b), FNil)) =>
      match kind {
        case STOP_SENDING => assert BuildCore(kind, code, fs) == Ok(StopSending(a, b));
        case MAX_STREAM_DATA => assert BuildCore(kind, code, fs) == Ok(MaxStreamData(a, b));
        case STREAM_DATA_BLOCKED => assert BuildCore(kind, code, fs) == Ok(StreamDataBlocked(a, b));
        case _ =>
      }
    case FCons(FVarint(a), FCons(FVarint(b), FCons(FVarint(c), FNil))) =>
      assert BuildCore(kind, code, fs) == Ok(ResetStream(a, b, c));
    case FCons(FVarint(a), FCons(FVarint(b), FCons(FVarint(c), FCons(FVarint(d), FNil)))) =>
      assert BuildCore(kind, code, fs) == Ok(ResetStreamAt(a, b, c, d));
    case _ =>
  }

  lemma BackControl(kind: FrameKind, code: vint, fs: FieldList)
    requires FrameByType(code) == Some(Active(kind)) && IsControl(kind) && AllPrintable(fs)
    requires BuildControl(kind, code, fs).Ok?
    ensures var f := BuildControl(kind, code, fs).value;
            && FrameWellFormed(f) && !f.Padding? && KindOf(f) == kind && TypeCode(f) == code && FieldsOf(f) == fs
  {
    hide FrameByType, AllPrintable;
    KindCodes(kind, code);
    if kind == PIPE_STATUS {
      PeelPrintable(fs);
      PeelPrintable(fs.tail);
      PeelPrintable(fs.tail.tail);
    }
  }

  lemma BackData(kind: FrameKind, code: vint, fs: FieldList)
    requires FrameByType(code) == Some(Active(kind)) && IsData(kind) && kind != QX_TRANSPORT_PARAMETERS
    requires HasShape(ShapeOf(kind, code), fs) && AllPrintable(fs) && BuildData(kind, code, fs).Ok?
    ensures var f := BuildData(kind, code, fs).value;
            && FrameWellFormed(f) && !f.Padding? && KindOf(f) == kind && TypeCode(f) == code && FieldsOf(f) == fs
  {
    hide FrameByType;
    KindCodes(kind, code);
    if kind == STREAM {
      StreamFields(code, fs);
    }
  }

  lemma PriorityByteBack(b: int)
    requires 0 <= b < 256 && b % 16 == 0
    ensures 0 <= b / 32 <= 7 && PriorityByte(b / 32, b % 32 >= 16) == b
  {
  }

  lemma BackJoin(locator: Bytes, pipe: int, flags: int, fateGroup: int, priority: int, token: Bytes)
    requires 0 <= flags < 256 && BuildJoin(locator, pipe, flags, fateGroup, priority, token).Ok?
    ensures var f := BuildJoin(locator, pipe, flags, fateGroup, priority, token).value;
            && f.PipeJoin? && 1 <= |f.join.locator| <= MAX_LOCATOR_BYTES && f.join.token == token
            && JoinFields(f.join) == FCons(FByteBytes(locator), FCons(FVarint(pipe), FCons(FByte(flags),
                 FCons(FVarint(fateGroup), FCons(FVarint(priority), FCons(FFixed(token), FNil))))))
  {
  }

  lemma BackOther(kind: FrameKind, code: vint, fs: FieldList)
    requires FrameByType(code) == Some(Active(kind)) && IsOther(kind)
    requires HasShape(ShapeOf(kind, code), fs) && AllPrintable(fs) && BuildOther(kind, code, fs).Ok?
    ensures var f := BuildOther(kind, code, fs).value;
            && FrameWellFormed(f) && !f.Padding? && KindOf(f) == kind && TypeCode(f) == code && FieldsOf(f) == fs
  {
    hide FrameByType, IncreasingEntries, EntriesInRange, AllPrintable, BuildJoin, PriorityByte, JoinFields;
    KindCodes(kind, code);
    match fs
    case FCons(FVarint(id), FCons(FVarint(seqno), FCons(FByte(b), FNil))) =>
      PeelPrintable(fs);
      PeelPrintable(fs.tail);
      PeelPrintable(fs.tail.tail);
      PriorityByteBack(b);
      assert BuildOther(kind, code, fs) == Ok(PriorityUpdate(id, seqno, b / 32, b % 32 >= 16));
    case FCons(FEntries(es), FNil) => assert BuildOther(kind, code, fs) == Ok(PipeAck(es));
    case FCons(FFixed(key), FCons(FVarint(pipe), FCons(FVarint(lane), FNil))) =>
      assert BuildOther(kind, code, fs) == Ok(PipeLane(key, pipe, lane));
    case FCons(FByteBytes(locator), FCons(FVarint(pipe), FCons(FByte(flags), FCons(FVarint(fateGroup),
         FCons(FVarint(priority), FCons(FFixed(token), FNil)))))) =>
      TokenLength(fs);
      PeelPrintable(fs);
      PeelPrintable(fs.tail);
      PeelPrintable(fs.tail.tail);
      BackJoin(locator, pipe, flags, fateGroup, priority, token);
    case _ =>
  }

  lemma BlockFieldShrinks(a: Bytes, b: Bytes)
    requires Shrinks(a, b) && IsVarint(|b|)
    ensures Shrinks(Print(FCons(FVarBytes(a), FNil)), Print(FCons(FVarBytes(b), FNil)))
  {
    hide EncV;
  }

  lemma BlockFrame(code: vint, fs: FieldList)
    requires HasShape(DataShape(true), fs) && AllPrintable(fs) && code == QX_TRANSPORT_PARAMETERS_TYPE
    requires Build(QX_TRANSPORT_PARAMETERS, code, fs).Ok?
    ensures var f := Build(QX_TRANSPORT_PARAMETERS, code, fs).value;
            && f.QxTransportParameters? && FrameWellFormed(f)
            && KindOf(f) == QX_TRANSPORT_PARAMETERS && TypeCode(f) == code
            && Shrinks(Print(FieldsOf(f)), Print(fs))
  {
    hide TpsBytes, DecodeTpsSpec, TpsWellFormed, EncV, Print;
    var block := fs.head.bs;
    TpsShrink(block);
    BlockFieldShrinks(TpsBytes(DecodeTpsSpec(block).value), block);
  }

  /** A frame that parsed fields make is well formed, has the type it was parsed under, and
      its own fields print to a canonical form of the parsed ones. */
  lemma BuildShrinks(kind: FrameKind, code: vint, fs: FieldList)
    requires FrameByType(code) == Some(Active(kind)) && kind != PADDING
    requires HasShape(ShapeOf(kind, code), fs) && AllPrintable(fs)
    requires Build(kind, code, fs).Ok?
    ensures var f := Build(kind, code, fs).value;
            && FrameWellFormed(f) && !f.Padding? && KindOf(f) == kind && TypeCode(f) == code
            && Shrinks(Print(FieldsOf(f)), Print(fs))
  {
    hide FrameByType, FrameWellFormed, HasShape, TypeCode, FieldsOf, AllPrintable;
    hide BuildData, BuildCore, BuildControl, BuildOther;
    if kind == QX_TRANSPORT_PARAMETERS {
      KindCodes(kind, code);
      BlockFrame(code, fs);
    } else if IsData(kind) {
      BackData(kind, code, fs);
    } else if IsOther(kind) {
      BackOther(kind, code, fs);
    } else if IsControl(kind) {
      BackControl(kind, code, fs);
    } else {
      BackCore(kind, code, fs);
    }
  }
}
