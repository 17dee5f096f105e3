/** Reading a frame dict the way encode_frame does: required keys, optional keys with their
    defaults, truth values (tools/zmuxwire/frames.py lines 38-56 and 225-320). */
module Dicts {
  import opened Base
  import opened Registry
  import opened Fields
  import opened TransportParameters
  import opened Frames
  import opened Canonical
  import opened Records
  import opened Trees

  // ---------------------------------------------------------------- sizes, for termination

  function EntriesSize(entries: seq<Entry>): nat
    decreases entries
  {
    if entries == [] then 0 else EntrySize(entries[0]) + EntriesSize(entries[1..])
  }

  function ItemsSize(items: seq<Obj>): nat
    decreases items
  {
    if items == [] then 0 else Size(items[0]) + ItemsSize(items[1..])
  }

  function Size(o: Obj): nat
    decreases o, 0
  {
    match o
    case List(items) => 1 + ItemsSize(items)
    case Dict(entries) => 1 + EntriesSize(entries)
    case _ => 1
  }

  function EntrySize(e: Entry): nat
    decreases e
  {
    Size(e.val)
  }

  // ---------------------------------------------------------------- keys

  /** d.get(k). */
  function Get(es: seq<Entry>, k: Key): (r: Option<Obj>)
    ensures r.Some? ==> Size(r.value) <= EntriesSize(es)
    decreases es
  {
    if es == [] then None
    else if es[0].key == k then assert EntrySize(es[0]) == Size(es[0].val); Some(es[0].val)
    else Get(es[1..], k)
  }

  function AsInt(o: Option<Obj>): Option<int> {
    if o.Some? && o.value.Num? then Some(o.value.n) else None
  }

  /** d[k], where the encoder needs an integer. */
  function IntAt(es: seq<Entry>, k: Key): Option<int> {
    AsInt(Get(es, k))
  }

  /** d.get(k, default). */
  function IntOr(es: seq<Entry>, k: Key, default: int): Option<int> {
    if Get(es, k).None? then Some(default) else IntAt(es, k)
  }

  /** _bytes(d[k]): None counts as no bytes. */
  function RawAt(es: seq<Entry>, k: Key): Option<Bytes> {
    match Get(es, k)
    case Some(Null) => Some([])
    case Some(Raw(b)) => Some(b)
    case _ => None
  }

  /** _bytes(d.get(k)): nothing counts as no bytes, too. */
  function RawOr(es: seq<Entry>, k: Key): Option<Bytes> {
    if Get(es, k).None? then Some([]) else RawAt(es, k)
  }

  /** Python's truth value. */
  predicate Truthy(o: Obj) {
    match o
    case Null => false
    case Bool(b) => b
    case Num(n) => n != 0
    case Str(Chars(s)) => s != ""
    case Str(_) => true
    case Raw(b) => b != []
    case List(items) => items != []
    case Dict(entries) => entries != []
  }

  predicate TruthAt(es: seq<Entry>, k: Key) {
    Get(es, k).Some? && Truthy(Get(es, k).value)
  }

  /** A flag whose absence is told apart. */
  function FlagAt(es: seq<Entry>, k: Key): Option<bool> {
    if Get(es, k).Some? then Some(Truthy(Get(es, k).value)) else None
  }

  // ---------------------------------------------------------------- parameters and entries

  function RoleOf(es: seq<Entry>): Option<Role> {
    match Get(es, KRole)
    case Some(Str(RoleText(InitiatorTag))) => Some(Initiator)
    case Some(Str(RoleText(ResponderTag))) => Some(Responder)
    case Some(Str(RoleText(AutoTag))) =>
      var nonce :- IntAt(es, KNonce);
      Some(Auto(nonce))
    case _ => None
  }

  /** The value of a parameter, by the format of its name. */
  function TpValueOf(name: TpName, o: Option<Obj>): Option<TpValue> {
    match TpFormatOf(name)
    case VarintFormat =>
      var n :- AsInt(o);
      Some(VarintValue(n))
    case EmptyFormat => Some(NoValue)
    case RoleFormat =>
      if o.None? || !o.value.Dict? then None
      else
        var role :- RoleOf(o.value.entries);
        Some(RoleValue(role))
    case MultipathFormat =>
      if o.None? || !o.value.Dict? then None
      else
        var flags :- IntAt(o.value.entries, KFlags);
        var nonce :- RawAt(o.value.entries, KNonce);
        var locator :- RawAt(o.value.entries, KLocator);
        Some(MultipathValue(flags, nonce, locator))
    case LanesFormat =>
      if o.None? || !o.value.Dict? then None
      else
        var n :- IntAt(o.value.entries, KMaxLanes);
        var key :- RawAt(o.value.entries, KLaneKey);
        Some(LanesValue(n, key))
  }

  /** A parameter under its name with a value, or under a number with a raw value. */
  function ParamOf(o: Obj): Option<Param> {
    if !o.Dict? then None
    else
      match Get(o.entries, KId)
      case Some(Str(ParamText(name))) =>
        var value :- TpValueOf(name, Get(o.entries, KValue));
        Some(Known(name, value))
      case Some(Num(id)) =>
        var raw :- RawAt(o.entries, KRaw);
        Some(Opaque(id, raw))
      case _ => None
  }

  function ParamsOf(items: seq<Obj>): Option<seq<Param>> {
    if items == [] then Some([])
    else
      var p :- ParamOf(items[0]);
      var rest :- ParamsOf(items[1..]);
      Some([p] + rest)
  }

  function AckOf(o: Obj): Option<AckEntry> {
    if !o.Dict? then None
    else
      var pipe :- IntAt(o.entries, KPipe);
      var lane :- IntAt(o.entries, KLane);
      var position :- IntAt(o.entries, KPosition);
      var delay :- IntAt(o.entries, KDelay);
      Some(AckEntry(pipe, lane, position, delay))
  }

  function AcksOf(items: seq<Obj>): Option<seq<AckEntry>> {
    if items == [] then Some([])
    else
      var e :- AckOf(items[0]);
      var rest :- AcksOf(items[1..]);
      Some([e] + rest)
  }

  // ---------------------------------------------------------------- frames

  function CoreOf(kind: FrameKind, es: seq<Entry>): Option<Frame> {
    match kind
    case RESET_STREAM =>
      var id :- IntAt(es, KId);
      var code :- IntAt(es, KCode);
      var finalSize :- IntAt(es, KFinalSize);
      Some(ResetStream(id, code, finalSize))
    case RESET_STREAM_AT =>
      var id :- IntAt(es, KId);
      var code :- IntAt(es, KCode);
      var finalSize :- IntAt(es, KFinalSize);
      var reliableSize :- IntAt(es, KReliableSize);
      Some(ResetStreamAt(id, code, finalSize, reliableSize))
    case STOP_SENDING =>
      var id :- IntAt(es, KId);
      var code :- IntAt(es, KCode);
      Some(StopSending(id, code))
    case MAX_DATA =>
      var max :- IntAt(es, KMax);
      Some(MaxData(max))
    case MAX_STREAM_DATA =>
      var id :- IntAt(es, KId);
      var max :- IntAt(es, KMax);
      Some(MaxStreamData(id, max))
    case MAX_STREAMS =>
      var max :- IntAt(es, KMax);
      if Get(es, KBidi).None? then None else Some(MaxStreams(TruthAt(es, KBidi), max))
    case DATA_BLOCKED =>
      var limit :- IntAt(es, KLimit);
      Some(DataBlocked(limit))
    case STREAM_DATA_BLOCKED =>
      var id :- IntAt(es, KId);
      var limit :- IntAt(es, KLimit);
      Some(StreamDataBlocked(id, limit))
    case STREAMS_BLOCKED =>
      var limit :- IntAt(es, KLimit);
      if Get(es, KBidi).None? then None else Some(StreamsBlocked(TruthAt(es, KBidi), limit))
    case _ => None
  }

  function ControlOf(kind: FrameKind, es: seq<Entry>): Option<Frame> {
    match kind
    case QX_PING =>
      var seqno :- IntAt(es, KSeq);
      Some(QxPing(TruthAt(es, KResponse), seqno))
    case GOAWAY =>
      var maxBidi :- IntAt(es, KMaxBidi);
      var maxUni :- IntAt(es, KMaxUni);
      var code :- IntAt(es, KCode);
      Some(Goaway(maxBidi, maxUni, code))
    case PIPE_PING => Some(PipePing)
    case PIPE_ABANDON =>
      var pipe :- IntAt(es, KPipe);
      var code :- IntAt(es, KCode);
      Some(PipeAbandon(pipe, code))
    case PIPE_STATUS =>
      var pipe :- IntAt(es, KPipe);
      var seqno :- IntAt(es, KSeq);
      var priority :- IntOr(es, KPriority, 0);
      match Get(es, KStatus) {
        case Some(Str(StatusText(status))) => Some(PipeStatus(pipe, seqno, status, priority))
        case _ => None
      }
    case _ => None
  }

  function DataOf(kind: FrameKind, es: seq<Entry>): Option<Frame> {
    match kind
    case STREAM =>
      var id :- IntAt(es, KId);
      var off :- IntOr(es, KOff, 0);
      var data :- RawOr(es, KData);
      Some(Stream(id, off, FlagAt(es, KHasOff), FlagAt(es, KHasLen), TruthAt(es, KFin), data))
    case CONNECTION_CLOSE =>
      var code :- IntAt(es, KCode);
      var reason :- RawOr(es, KReason);
      if TruthAt(es, KApp) then Some(ConnectionClose(true, code, None, reason))
      else
        var frameType :- IntOr(es, KFrameType, 0);
        Some(ConnectionClose(false, code, Some(frameType), reason))
    case DATAGRAM =>
      var data :- RawOr(es, KData);
      Some(Datagram(FlagAt(es, KHasLen), data))
    case QX_TRANSPORT_PARAMETERS =>
      match Get(es, KParams) {
        case Some(List(items)) =>
          var params :- ParamsOf(items);
          Some(QxTransportParameters(params))
        case _ => None
      }
    case _ => None
  }

  function OtherOf(kind: FrameKind, es: seq<Entry>): Option<Frame> {
    match kind
    case PADDING =>
      var n :- IntOr(es, KCount, 1);
      Some(Padding(n))
    case PRIORITY_UPDATE =>
      var id :- IntAt(es, KId);
      var seqno :- IntAt(es, KSeq);
      var urgency :- IntAt(es, KUrgency);
      Some(PriorityUpdate(id, seqno, urgency, TruthAt(es, KIncremental)))
    case PIPE_JOIN =>
      var locator :- RawAt(es, KLocator);
      var pipe :- IntAt(es, KPipe);
      var fateGroup :- IntAt(es, KFateGroup);
      var priority :- IntOr(es, KPriority, 0);
      var token :- RawAt(es, KToken);
      match Get(es, KDirection) {
        case Some(Str(DirectionText(d))) =>
          Some(PipeJoin(Join(locator, pipe, d, TruthAt(es, KCarrierBound), TruthAt(es, KStandby),
                             fateGroup, priority, token)))
        case _ => None
      }
    case PIPE_ACK =>
      match Get(es, KAckEntries) {
        case Some(List(items)) =>
          var entries :- AcksOf(items);
          Some(PipeAck(entries))
        case _ => None
      }
    case PIPE_LANE =>
      var key :- RawAt(es, KLaneKey);
      var pipe :- IntAt(es, KPipe);
      var lane :- IntAt(es, KLane);
      Some(PipeLane(key, pipe, lane))
    case _ => None
  }

  function FrameOfKind(kind: FrameKind, es: seq<Entry>): Option<Frame> {
    if IsCore(kind) then CoreOf(kind, es)
    else if IsControl(kind) then ControlOf(kind, es)
    else if IsData(kind) then DataOf(kind, es)
    else OtherOf(kind, es)
  }

  /** The frame a dict describes; None when the encoder raises for want of a key or over the
      type of a value. */
  function FrameOf(o: Obj): Option<Frame>
    decreases Size(o)
  {
    if !o.Dict? then None
    else
      match Get(o.entries, KType)
      case Some(Str(RepeatText)) =>
        var n :- IntAt(o.entries, KCount);
        var inner :- Get(o.entries, KFrame);
        var f :- FrameOf(inner);
        Some(Repeat(n, f))
      case Some(Str(FrameText(kind))) => FrameOfKind(kind, o.entries)
      case _ => None
  }

  function FramesOf(items: seq<Obj>): Option<seq<Frame>> {
    if items == [] then Some([])
    else
      var f :- FrameOf(items[0]);
      var rest :- FramesOf(items[1..]);
      Some([f] + rest)
  }

  /** encode_record of a list of frame dicts; None when it raises. */
  function RecordBytesOf(o: Obj): Option<Bytes> {
    if !o.List? then None
    else
      var fs :- FramesOf(o.items);
      if RecordEncodable(fs) then Some(RecordWire(fs)) else None
  }

  /** record_bytes. */
  function RecordsBytes(records: seq<Obj>): Option<Bytes> {
    if records == [] then Some([])
    else
      var first :- RecordBytesOf(records[0]);
      var rest :- RecordsBytes(records[1..]);
      Some(first + rest)
  }

  /** encode_frames of a list of frame dicts; None when it raises. */
  function MessageBytesOf(o: Obj): Option<Bytes> {
    if !o.List? then None
    else
      var fs :- FramesOf(o.items);
      if AllEncodable(fs) then Some(WireAll(fs)) else None
  }
}
