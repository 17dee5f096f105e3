/** Reading a blurred dict gives a blurred frame: encode_frame reads only keys and values that
    blurring keeps or blurs in step (tools/zmuxwire/frames.py lines 225-300). */
module BlurredDicts {
  import opened Base
  import opened Registry
  import opened Fields
  import opened TransportParameters
  import opened Frames
  import opened Trees
  import opened Dicts
  import opened Placeholders

  // ---------------------------------------------------------------- reading blurred dicts

  lemma {:induction false} GetBlurred(es: seq<Entry>, k: Key)
    ensures Get(BlurEntries(es), k) ==
              if Get(es, k).None? then None
              else Some(BlurObj(Get(es, k).value))
  {
    hide BlurObj;
    if es == [] {
    } else {
      GetBlurred(es[1..], k);
      assert BlurEntries(es)[1..] == BlurEntries(es[1..]);
    }
  }

  function BlurInt(o: Option<int>): Option<int> {
    if o.None? then None else Some(Blur(o.value))
  }

  lemma IntBlurred(es: seq<Entry>, k: Key)
    ensures IntAt(BlurEntries(es), k) == BlurInt(IntAt(es, k))
  {
    hide BlurEntries, Get, BlurItems;
    GetBlurred(es, k);
  }

  lemma IntOrBlurred(es: seq<Entry>, k: Key, default: int)
    requires !InBand(default)
    ensures IntOr(BlurEntries(es), k, default) == BlurInt(IntOr(es, k, default))
  {
    hide BlurEntries, Get, BlurItems;
    GetBlurred(es, k);
  }

  lemma RawKept(es: seq<Entry>, k: Key)
    ensures RawAt(BlurEntries(es), k) == RawAt(es, k) && RawOr(BlurEntries(es), k) == RawOr(es, k)
  {
    hide BlurEntries, Get, BlurItems;
    GetBlurred(es, k);
  }

  lemma TruthKept(es: seq<Entry>, k: Key)
    ensures TruthAt(BlurEntries(es), k) == TruthAt(es, k) && FlagAt(BlurEntries(es), k) == FlagAt(es, k)
    ensures Get(BlurEntries(es), k).Some? == Get(es, k).Some?
  {
    hide BlurEntries, Get, BlurItems;
    GetBlurred(es, k);
  }

  predicate IsText(o: Option<Obj>) {
    o.Some? && o.value.Str?
  }

  lemma TextKept(es: seq<Entry>, k: Key)
    ensures IsText(Get(es, k)) || IsText(Get(BlurEntries(es), k)) ==> Get(BlurEntries(es), k) == Get(es, k)
  {
    hide BlurEntries, Get, BlurItems;
    GetBlurred(es, k);
  }

  // ---------------------------------------------------------------- blurred frames

  function BlurAck(e: AckEntry): AckEntry {
    AckEntry(Blur(e.pipe), Blur(e.lane), Blur(e.position), Blur(e.delay))
  }

  function BlurAcks(es: seq<AckEntry>): (r: seq<AckEntry>)
    ensures |r| == |es|
  {
    if es == [] then [] else [BlurAck(es[0])] + BlurAcks(es[1..])
  }

  function BlurValue(v: TpValue): TpValue {
    match v
    case VarintValue(n) => VarintValue(Blur(n))
    case RoleValue(Auto(nonce)) => RoleValue(Auto(Blur(nonce)))
    case MultipathValue(flags, nonce, locator) => MultipathValue(Blur(flags), nonce, locator)
    case LanesValue(n, key) => LanesValue(Blur(n), key)
    case _ => v
  }

  function BlurParam(p: Param): Param {
    match p
    case Known(name, value) => Known(name, BlurValue(value))
    case Opaque(id, raw) => Opaque(Blur(id), raw)
  }

  function BlurParams(ps: seq<Param>): (r: seq<Param>)
    ensures |r| == |ps|
  {
    if ps == [] then [] else [BlurParam(ps[0])] + BlurParams(ps[1..])
  }

  function BlurFrame(f: Frame): Frame {
    match f
    case Padding(n) => Padding(Blur(n))
    case ResetStream(id, code, size) => ResetStream(Blur(id), Blur(code), Blur(size))
    case ResetStreamAt(id, code, size, reliable) => ResetStreamAt(Blur(id), Blur(code), Blur(size), Blur(reliable))
    case StopSending(id, code) => StopSending(Blur(id), Blur(code))
    case Stream(id, off, hasOff, hasLen, fin, data) => Stream(Blur(id), Blur(off), hasOff, hasLen, fin, data)
    case MaxData(max) => MaxData(Blur(max))
    case MaxStreamData(id, max) => MaxStreamData(Blur(id), Blur(max))
    case MaxStreams(bidi, max) => MaxStreams(bidi, Blur(max))
    case DataBlocked(limit) => DataBlocked(Blur(limit))
    case StreamDataBlocked(id, limit) => StreamDataBlocked(Blur(id), Blur(limit))
    case StreamsBlocked(bidi, limit) => StreamsBlocked(bidi, Blur(limit))
    case ConnectionClose(app, code, frameType, reason) => ConnectionClose(app, Blur(code), BlurInt(frameType), reason)
    case Datagram(_, _) => f
    case QxTransportParameters(params) => QxTransportParameters(BlurParams(params))
    case QxPing(response, seqno) => QxPing(response, Blur(seqno))
    case Goaway(bidi, uni, code) => Goaway(Blur(bidi), Blur(uni), Blur(code))
    case PriorityUpdate(id, seqno, urgency, incremental) =>
      PriorityUpdate(Blur(id), Blur(seqno), Blur(urgency), incremental)
    case PipeJoin(j) => PipeJoin(j.(pipe := Blur(j.pipe), fateGroup := Blur(j.fateGroup), priority := Blur(j.priority)))
    case PipeAck(entries) => PipeAck(BlurAcks(entries))
    case PipeLane(key, pipe, lane) => PipeLane(key, Blur(pipe), Blur(lane))
    case PipePing => f
    case PipeAbandon(pipe, code) => PipeAbandon(Blur(pipe), Blur(code))
    case PipeStatus(pipe, seqno, status, priority) => PipeStatus(Blur(pipe), Blur(seqno), status, Blur(priority))
    case Repeat(n, g) => Repeat(Blur(n), BlurFrame(g))
  }

  function BlurOption(f: Option<Frame>): Option<Frame> {
    if f.None? then None else Some(BlurFrame(f.value))
  }

  // ---------------------------------------------------------------- a blurred dict describes the blurred frame

  lemma AckBlurred(o: Obj)
    ensures AckOf(BlurObj(o)) == if AckOf(o).None? then None else Some(BlurAck(AckOf(o).value))
  {
    hide BlurEntries, IntAt, Get, BlurItems, Blur;
    if o.Dict? {
      IntBlurred(o.entries, KPipe);
      IntBlurred(o.entries, KLane);
      IntBlurred(o.entries, KPosition);
      IntBlurred(o.entries, KDelay);
    }
  }

  lemma {:induction false} AcksBlurred(items: seq<Obj>)
    ensures AcksOf(BlurItems(items)) == if AcksOf(items).None? then None else Some(BlurAcks(AcksOf(items).value))
  {
    hide AckOf, BlurObj, BlurAck;
    if items == [] {
    } else {
      AckBlurred(items[0]);
      AcksBlurred(items[1..]);
      assert BlurItems(items)[1..] == BlurItems(items[1..]);
      if AcksOf(items).Some? {
        assert AcksOf(items).value[1..] == AcksOf(items[1..]).value;
      }
    }
  }

  lemma RoleBlurred(es: seq<Entry>)
    ensures RoleOf(BlurEntries(es)) ==
              match RoleOf(es) { case Some(Auto(nonce)) => Some(Auto(Blur(nonce))) case r => r }
  {
    hide BlurEntries, IntAt, Get, Blur;
    TextKept(es, KRole);
    IntBlurred(es, KNonce);
  }

  function BlurValueOption(v: Option<TpValue>): Option<TpValue> {
    if v.None? then None else Some(BlurValue(v.value))
  }

  lemma PlainValues(n: int)
    ensures BlurValue(VarintValue(n)) == VarintValue(Blur(n)) && BlurValue(NoValue) == NoValue
  {
    hide Blur;
  }

  lemma RoleValueBlurred(name: TpName, es: seq<Entry>)
    requires TpFormatOf(name) == RoleFormat
    ensures TpValueOf(name, Some(Dict(BlurEntries(es)))) == BlurValueOption(TpValueOf(name, Some(Dict(es))))
  {
    hide BlurEntries, RoleOf, Blur, TpFormatOf;
    RoleBlurred(es);
  }

  lemma MultipathBlurred(name: TpName, es: seq<Entry>)
    requires TpFormatOf(name) == MultipathFormat
    ensures TpValueOf(name, Some(Dict(BlurEntries(es)))) == BlurValueOption(TpValueOf(name, Some(Dict(es))))
  {
    hide BlurEntries, IntAt, RawAt, RawOr, Blur, TpFormatOf;
    IntBlurred(es, KFlags);
    RawKept(es, KNonce);
    RawKept(es, KLocator);
  }

  lemma LanesBlurred(name: TpName, es: seq<Entry>)
    requires TpFormatOf(name) == LanesFormat
    ensures TpValueOf(name, Some(Dict(BlurEntries(es)))) == BlurValueOption(TpValueOf(name, Some(Dict(es))))
  {
    hide BlurEntries, IntAt, RawAt, RawOr, Blur, TpFormatOf;
    IntBlurred(es, KMaxLanes);
    RawKept(es, KLaneKey);
  }

  lemma ValueBlurred(name: TpName, o: Obj)
    ensures TpValueOf(name, Some(BlurObj(o))) == BlurValueOption(TpValueOf(name, Some(o)))
  {
    hide BlurEntries, BlurItems, IntAt, RawAt, RawOr, RoleOf, Blur, TpFormatOf, BlurValue;
    if o.Dict? {
      match TpFormatOf(name)
      case RoleFormat => RoleValueBlurred(name, o.entries);
      case MultipathFormat => MultipathBlurred(name, o.entries);
      case LanesFormat => LanesBlurred(name, o.entries);
      case _ =>
    } else if o.Num? {
      PlainValues(o.n);
    } else {
      PlainValues(0);
    }
    PlainValues(0);
  }

  lemma AbsentBlurred(name: TpName)
    ensures TpValueOf(name, None) == BlurValueOption(TpValueOf(name, None))
  {
  }

  lemma ParamBlurred(o: Obj)
    ensures ParamOf(BlurObj(o)) == if ParamOf(o).None? then None else Some(BlurParam(ParamOf(o).value))
  {
    hide BlurEntries, BlurItems, RawAt, RawOr, Get, TpValueOf, Blur;
    if o.Dict? {
      GetBlurred(o.entries, KId);
      GetBlurred(o.entries, KValue);
      GetBlurred(o.entries, KRaw);
      RawKept(o.entries, KRaw);
      if Get(o.entries, KId).Some? && Get(o.entries, KId).value.Str? && Get(o.entries, KId).value.text.ParamText? {
        if Get(o.entries, KValue).Some? {
          ValueBlurred(Get(o.entries, KId).value.text.param, Get(o.entries, KValue).value);
        } else {
          AbsentBlurred(Get(o.entries, KId).value.text.param);
        }
      }
    }
  }

  lemma {:induction false} ParamsBlurred(items: seq<Obj>)
    ensures ParamsOf(BlurItems(items)) ==
              if ParamsOf(items).None? then None else Some(BlurParams(ParamsOf(items).value))
  {
    hide ParamOf, BlurObj, BlurParam;
    if items == [] {
    } else {
      ParamBlurred(items[0]);
      ParamsBlurred(items[1..]);
      assert BlurItems(items)[1..] == BlurItems(items[1..]);
      if ParamsOf(items).Some? {
        assert ParamsOf(items).value[1..] == ParamsOf(items[1..]).value;
      }
    }
  }

  lemma EndsBlurred(kind: FrameKind, es: seq<Entry>)
    requires kind == RESET_STREAM || kind == RESET_STREAM_AT || kind == STOP_SENDING
    ensures CoreOf(kind, BlurEntries(es)) == BlurOption(CoreOf(kind, es))
  {
    hide BlurEntries, BlurItems, IntAt, IntOr, RawAt, RawOr, TruthAt, FlagAt, Get, Blur;
    IntBlurred(es, KId);
    IntBlurred(es, KCode);
    if kind != STOP_SENDING {
      IntBlurred(es, KFinalSize);
      IntBlurred(es, KReliableSize);
    }
  }

  lemma MaximaBlurred(kind: FrameKind, es: seq<Entry>)
    requires kind == MAX_DATA || kind == MAX_STREAM_DATA || kind == MAX_STREAMS
    ensures CoreOf(kind, BlurEntries(es)) == BlurOption(CoreOf(kind, es))
  {
    hide BlurEntries, BlurItems, IntAt, IntOr, RawAt, RawOr, TruthAt, FlagAt, Get, Blur;
    match kind
    case MAX_DATA => IntBlurred(es, KMax);
    case MAX_STREAM_DATA =>
      IntBlurred(es, KId);
      IntBlurred(es, KMax);
    case MAX_STREAMS =>
      IntBlurred(es, KMax);
      TruthKept(es, KBidi);
    case _ =>
  }

  lemma LimitsBlurred(kind: FrameKind, es: seq<Entry>)
    requires kind == DATA_BLOCKED || kind == STREAM_DATA_BLOCKED || kind == STREAMS_BLOCKED
    ensures CoreOf(kind, BlurEntries(es)) == BlurOption(CoreOf(kind, es))
  {
    hide BlurEntries, BlurItems, IntAt, IntOr, RawAt, RawOr, TruthAt, FlagAt, Get, Blur;
    match kind
    case DATA_BLOCKED => IntBlurred(es, KLimit);
    case STREAM_DATA_BLOCKED =>
      IntBlurred(es, KId);
      IntBlurred(es, KLimit);
    case STREAMS_BLOCKED =>
      IntBlurred(es, KLimit);
      TruthKept(es, KBidi);
    case _ =>
  }

  lemma SessionBlurred(kind: FrameKind, es: seq<Entry>)
    requires kind == QX_PING || kind == GOAWAY
    ensures ControlOf(kind, BlurEntries(es)) == BlurOption(ControlOf(kind, es))
  {
    hide BlurEntries, BlurItems, IntAt, IntOr, RawAt, RawOr, TruthAt, FlagAt, Get, Blur;
    match kind
    case QX_PING =>
      IntBlurred(es, KSeq);
      TruthKept(es, KResponse);
    case GOAWAY =>
      IntBlurred(es, KMaxBidi);
      IntBlurred(es, KMaxUni);
      IntBlurred(es, KCode);
    case _ =>
  }

  lemma PipeBlurred(kind: FrameKind, es: seq<Entry>)
    requires kind == PIPE_PING || kind == PIPE_ABANDON
    ensures ControlOf(kind, BlurEntries(es)) == BlurOption(ControlOf(kind, es))
  {
    hide BlurEntries, BlurItems, IntAt, IntOr, RawAt, RawOr, TruthAt, FlagAt, Get, Blur;
    IntBlurred(es, KPipe);
    IntBlurred(es, KCode);
  }

  lemma StatusBlurred(es: seq<Entry>)
    ensures ControlOf(PIPE_STATUS, BlurEntries(es)) == BlurOption(ControlOf(PIPE_STATUS, es))
  {
    hide BlurEntries, BlurItems, IntAt, IntOr, RawAt, RawOr, TruthAt, FlagAt, Get, Blur;
    IntBlurred(es, KPipe);
    IntBlurred(es, KSeq);
    IntOrBlurred(es, KPriority, 0);
    TextKept(es, KStatus);
  }

  lemma StreamOfParts(xs: seq<Entry>, es: seq<Entry>)
    requires IntAt(xs, KId) == BlurInt(IntAt(es, KId)) && IntOr(xs, KOff, 0) == BlurInt(IntOr(es, KOff, 0))
    requires RawOr(xs, KData) == RawOr(es, KData) && FlagAt(xs, KHasOff) == FlagAt(es, KHasOff)
    requires FlagAt(xs, KHasLen) == FlagAt(es, KHasLen) && TruthAt(xs, KFin) == TruthAt(es, KFin)
    ensures DataOf(STREAM, xs) == BlurOption(DataOf(STREAM, es))
  {
    hide IntAt, IntOr, RawAt, RawOr, TruthAt, FlagAt, Blur;
  }

  lemma StreamBlurred(es: seq<Entry>)
    ensures DataOf(STREAM, BlurEntries(es)) == BlurOption(DataOf(STREAM, es))
  {
    hide BlurEntries, BlurInt, IntAt, IntOr, RawAt, RawOr, TruthAt, FlagAt, Get, DataOf;
    IntBlurred(es, KId);
    IntOrBlurred(es, KOff, 0);
    RawKept(es, KData);
    TruthKept(es, KHasOff);
    TruthKept(es, KHasLen);
    TruthKept(es, KFin);
    StreamOfParts(BlurEntries(es), es);
  }

  lemma CloseBlurred(es: seq<Entry>)
    ensures DataOf(CONNECTION_CLOSE, BlurEntries(es)) == BlurOption(DataOf(CONNECTION_CLOSE, es))
  {
    hide BlurEntries, BlurItems, IntAt, IntOr, RawAt, RawOr, TruthAt, FlagAt, Get, Blur;
    IntBlurred(es, KCode);
    RawKept(es, KReason);
    TruthKept(es, KApp);
    IntOrBlurred(es, KFrameType, 0);
  }

  lemma DatagramBlurred(es: seq<Entry>)
    ensures DataOf(DATAGRAM, BlurEntries(es)) == BlurOption(DataOf(DATAGRAM, es))
  {
    hide BlurEntries, BlurItems, IntAt, IntOr, RawAt, RawOr, TruthAt, FlagAt, Get, Blur;
    RawKept(es, KData);
    TruthKept(es, KHasLen);
  }

  lemma BlockBlurred(es: seq<Entry>)
    ensures DataOf(QX_TRANSPORT_PARAMETERS, BlurEntries(es)) == BlurOption(DataOf(QX_TRANSPORT_PARAMETERS, es))
  {
    hide BlurEntries, BlurItems, Get, ParamsOf;
    GetBlurred(es, KParams);
    if Get(es, KParams).Some? && Get(es, KParams).value.List? {
      ParamsBlurred(Get(es, KParams).value.items);
    }
  }

  lemma PaddingBlurred(es: seq<Entry>)
    ensures OtherOf(PADDING, BlurEntries(es)) == BlurOption(OtherOf(PADDING, es))
  {
    hide BlurEntries, BlurItems, IntAt, IntOr, RawAt, RawOr, TruthAt, FlagAt, Get, Blur;
    IntOrBlurred(es, KCount, 1);
  }

  lemma PriorityBlurred(es: seq<Entry>)
    ensures OtherOf(PRIORITY_UPDATE, BlurEntries(es)) == BlurOption(OtherOf(PRIORITY_UPDATE, es))
  {
    hide BlurEntries, BlurItems, IntAt, IntOr, RawAt, RawOr, TruthAt, FlagAt, Get, Blur;
    IntBlurred(es, KId);
    IntBlurred(es, KSeq);
    IntBlurred(es, KUrgency);
    TruthKept(es, KIncremental);
  }

  lemma LaneBlurred(es: seq<Entry>)
    ensures OtherOf(PIPE_LANE, BlurEntries(es)) == BlurOption(OtherOf(PIPE_LANE, es))
  {
    hide BlurEntries, BlurItems, IntAt, IntOr, RawAt, RawOr, TruthAt, FlagAt, Get, Blur;
    RawKept(es, KLaneKey);
    IntBlurred(es, KPipe);
    IntBlurred(es, KLane);
  }

  lemma JoinOfParts(xs: seq<Entry>, es: seq<Entry>)
    requires RawAt(xs, KLocator) == RawAt(es, KLocator) && RawAt(xs, KToken) == RawAt(es, KToken)
    requires IntAt(xs, KPipe) == BlurInt(IntAt(es, KPipe)) && IntAt(xs, KFateGroup) == BlurInt(IntAt(es, KFateGroup))
    requires IntOr(xs, KPriority, 0) == BlurInt(IntOr(es, KPriority, 0))
    requires Get(xs, KDirection) == if Get(es, KDirection).None? then None else Some(BlurObj(Get(es, KDirection).value))
    requires TruthAt(xs, KCarrierBound) == TruthAt(es, KCarrierBound) && TruthAt(xs, KStandby) == TruthAt(es, KStandby)
    ensures OtherOf(PIPE_JOIN, xs) == BlurOption(OtherOf(PIPE_JOIN, es))
  {
    hide IntAt, IntOr, RawAt, RawOr, TruthAt, Get, Blur, BlurItems, BlurEntries;
  }

  lemma JoinBlurred(es: seq<Entry>)
    ensures OtherOf(PIPE_JOIN, BlurEntries(es)) == BlurOption(OtherOf(PIPE_JOIN, es))
  {
    hide BlurEntries, BlurInt, IntAt, IntOr, RawAt, RawOr, TruthAt, FlagAt, Get, OtherOf;
    RawKept(es, KLocator);
    IntBlurred(es, KPipe);
    IntBlurred(es, KFateGroup);
    IntOrBlurred(es, KPriority, 0);
    RawKept(es, KToken);
    GetBlurred(es, KDirection);
    TruthKept(es, KCarrierBound);
    TruthKept(es, KStandby);
    JoinOfParts(BlurEntries(es), es);
  }

  lemma AckFrameBlurred(es: seq<Entry>)
    ensures OtherOf(PIPE_ACK, BlurEntries(es)) == BlurOption(OtherOf(PIPE_ACK, es))
  {
    hide BlurEntries, BlurItems, Get, AcksOf;
    GetBlurred(es, KAckEntries);
    if Get(es, KAckEntries).Some? && Get(es, KAckEntries).value.List? {
      AcksBlurred(Get(es, KAckEntries).value.items);
    }
  }

  lemma KindBlurred(kind: FrameKind, es: seq<Entry>)
    ensures FrameOfKind(kind, BlurEntries(es)) == BlurOption(FrameOfKind(kind, es))
  {
    hide CoreOf, ControlOf, DataOf, OtherOf, BlurFrame;
    match kind
    case RESET_STREAM => EndsBlurred(kind, es);
    case RESET_STREAM_AT => EndsBlurred(kind, es);
    case STOP_SENDING => EndsBlurred(kind, es);
    case MAX_DATA => MaximaBlurred(kind, es);
    case MAX_STREAM_DATA => MaximaBlurred(kind, es);
    case MAX_STREAMS => MaximaBlurred(kind, es);
    case DATA_BLOCKED => LimitsBlurred(kind, es);
    case STREAM_DATA_BLOCKED => LimitsBlurred(kind, es);
    case STREAMS_BLOCKED => LimitsBlurred(kind, es);
    case QX_PING => SessionBlurred(kind, es);
    case GOAWAY => SessionBlurred(kind, es);
    case PIPE_PING => PipeBlurred(kind, es);
    case PIPE_ABANDON => PipeBlurred(kind, es);
    case PIPE_STATUS => StatusBlurred(es);
    case STREAM => StreamBlurred(es);
    case CONNECTION_CLOSE => CloseBlurred(es);
    case DATAGRAM => DatagramBlurred(es);
    case QX_TRANSPORT_PARAMETERS => BlockBlurred(es);
    case PADDING => PaddingBlurred(es);
    case PRIORITY_UPDATE => PriorityBlurred(es);
    case PIPE_LANE => LaneBlurred(es);
    case PIPE_JOIN => JoinBlurred(es);
    case PIPE_ACK => AckFrameBlurred(es);
  }

  lemma RepeatBlurred(n: int, f: Frame)
    ensures BlurFrame(Repeat(n, f)) == Repeat(Blur(n), BlurFrame(f))
  {
  }

  lemma {:induction false} FrameBlurred(o: Obj)
    ensures FrameOf(BlurObj(o)) == BlurOption(FrameOf(o))
    decreases Size(o)
  {
    hide BlurEntries, BlurItems, Get, IntAt, FrameOfKind, Blur, BlurFrame;
    if o.Dict? {
      var es := o.entries;
      TextKept(es, KType);
      if Get(es, KType) == Some(Str(RepeatText)) {
        IntBlurred(es, KCount);
        GetBlurred(es, KFrame);
        if Get(es, KFrame).Some? {
          var inner := Get(es, KFrame).value;
          FrameBlurred(inner);
          if FrameOf(inner).Some? && IntAt(es, KCount).Some? {
            RepeatBlurred(IntAt(es, KCount).value, FrameOf(inner).value);
          }
        }
      } else if IsText(Get(es, KType)) && Get(es, KType).value.text.FrameText? {
        KindBlurred(Get(es, KType).value.text.kind, es);
      }
    }
  }
}
