/** The dict of a decoded frame says all that encode_frame needs: reading it back, directly or
    through its JSON form, gives the frame (tools/zmuxwire/frames.py lines 225-300, 376-516 and
    644-683). */
module DictForms {
  import opened Base
  import opened Registry
  import opened Fields
  import opened TransportParameters
  import opened Frames
  import opened Canonical
  import opened Trees
  import opened Dicts

  predicate Distinct(es: seq<Entry>) {
    forall i, j :: 0 <= i < j < |es| ==> es[i].key != es[j].key
  }

  lemma {:induction false} GetAt(es: seq<Entry>, i: nat)
    requires Distinct(es) && i < |es|
    ensures Get(es, es[i].key) == Some(es[i].val)
  {
    if i == 0 {
    } else {
      GetAt(es[1..], i - 1);
    }
  }

  /** The first entries of a dict are found under their keys. */
  lemma GetFirst(es: seq<Entry>)
    requires Distinct(es)
    ensures |es| > 0 ==> Get(es, es[0].key) == Some(es[0].val)
    ensures |es| > 1 ==> Get(es, es[1].key) == Some(es[1].val)
    ensures |es| > 2 ==> Get(es, es[2].key) == Some(es[2].val)
    ensures |es| > 3 ==> Get(es, es[3].key) == Some(es[3].val)
    ensures |es| > 4 ==> Get(es, es[4].key) == Some(es[4].val)
  {
    hide Get, Distinct;
    if |es| > 0 { GetAt(es, 0); }
    if |es| > 1 { GetAt(es, 1); }
    if |es| > 2 { GetAt(es, 2); }
    if |es| > 3 { GetAt(es, 3); }
    if |es| > 4 { GetAt(es, 4); }
  }

  // ---------------------------------------------------------------- parameters and entries

  lemma ValueDistinct(value: TpValue)
    requires ValueObj(value).Dict?
    ensures Distinct(ValueObj(value).entries)
  {
  }

  lemma RoleReadsBack(role: Role)
    ensures TpValueOf(ZmuxRole, Some(ValueObj(RoleValue(role)))) == Some(RoleValue(role))
  {
    hide Get, Distinct;
    ValueDistinct(RoleValue(role));
    GetFirst(ValueObj(RoleValue(role)).entries);
  }

  lemma RecordReadsBack(name: TpName, value: TpValue)
    requires (name.ZmuxMultipath? && value.MultipathValue?) || (name.ZmuxMaxLanes? && value.LanesValue?)
    ensures TpValueOf(name, Some(ValueObj(value))) == Some(value)
  {
    hide Get, Distinct;
    ValueDistinct(value);
    GetFirst(ValueObj(value).entries);
  }

  lemma ValueReadsBack(name: TpName, value: TpValue)
    requires ParamWellFormed(Known(name, value))
    ensures TpValueOf(name, Some(ValueObj(value))) == Some(value)
  {
    hide RoleOf, Get, IntAt, RawAt;
    match value
    case RoleValue(role) => RoleReadsBack(role);
    case MultipathValue(_, _, _) => RecordReadsBack(name, value);
    case LanesValue(_, _) => RecordReadsBack(name, value);
    case _ =>
  }

  lemma ParamDistinct(p: Param)
    ensures Distinct(ParamObj(p).entries)
  {
    hide ValueObj;
  }

  lemma KnownReadsBack(name: TpName, value: TpValue)
    requires ParamWellFormed(Known(name, value))
    ensures ParamOf(ParamObj(Known(name, value))) == Some(Known(name, value))
  {
    hide Get, Distinct, TpValueOf, ValueObj, ParamWellFormed;
    var es := ParamObj(Known(name, value)).entries;
    ParamDistinct(Known(name, value));
    GetFirst(es);
    ValueReadsBack(name, value);
  }

  lemma OpaqueReadsBack(id: int, raw: Bytes)
    ensures ParamOf(ParamObj(Opaque(id, raw))) == Some(Opaque(id, raw))
  {
    hide Get, Distinct, TpValueOf;
    ParamDistinct(Opaque(id, raw));
    GetFirst(ParamObj(Opaque(id, raw)).entries);
  }

  lemma ParamReadsBack(p: Param)
    requires ParamWellFormed(p)
    ensures ParamOf(ParamObj(p)) == Some(p)
  {
    hide ParamOf, ParamObj, ParamWellFormed;
    match p
    case Known(name, value) => KnownReadsBack(name, value);
    case Opaque(id, raw) => OpaqueReadsBack(id, raw);
  }

  lemma ParamsOfCons(o: Obj, p: Param, objs: seq<Obj>, ps: seq<Param>)
    requires ParamOf(o) == Some(p) && ParamsOf(objs) == Some(ps)
    ensures ParamsOf([o] + objs) == Some([p] + ps)
  {
    hide ParamOf;
    assert ([o] + objs)[1..] == objs;
  }

  lemma {:induction false} ParamsReadBack(ps: seq<Param>)
    requires forall i :: 0 <= i < |ps| ==> ParamWellFormed(ps[i])
    ensures ParamsOf(ParamObjs(ps)) == Some(ps)
  {
    hide ParamOf, ParamObj, ParamWellFormed;
    if ps == [] {
    } else {
      hide ParamsOf;
      ParamReadsBack(ps[0]);
      ParamsReadBack(ps[1..]);
      ParamsOfCons(ParamObj(ps[0]), ps[0], ParamObjs(ps[1..]), ps[1..]);
      assert ps == [ps[0]] + ps[1..];
    }
  }

  lemma AckDistinct(e: AckEntry)
    ensures Distinct(AckObj(e).entries)
  {
  }

  lemma AckReadsBack(e: AckEntry)
    ensures AckOf(AckObj(e)) == Some(e)
  {
    hide Get, Distinct;
    AckDistinct(e);
    GetFirst(AckObj(e).entries);
  }

  lemma {:induction false} AcksReadBack(es: seq<AckEntry>)
    ensures AcksOf(AckObjs(es)) == Some(es)
  {
    hide AckOf, AckObj;
    if es == [] {
    } else {
      AckReadsBack(es[0]);
      AcksReadBack(es[1..]);
      assert AckObjs(es)[1..] == AckObjs(es[1..]);
      assert es == [es[0]] + es[1..];
    }
  }

  // ---------------------------------------------------------------- frames

  /** The entries of the dict of a frame. */
  function DictEntries(f: Frame): seq<Entry>
    requires !f.Repeat?
  {
    FrameDict(f).entries
  }

  lemma CoreDistinct(f: Frame)
    requires !f.Repeat? && IsCore(KindOf(f))
    ensures Distinct(DictEntries(f)) && |DictEntries(f)| <= 5
  {
  }

  lemma CoreReadsBack(f: Frame)
    requires !f.Repeat? && IsCore(KindOf(f))
    ensures CoreOf(KindOf(f), DictEntries(f)) == Some(f)
  {
    hide Get, Distinct;
    CoreDistinct(f);
    GetFirst(DictEntries(f));
  }

  predicate ControlFrame(f: Frame) {
    f.QxPing? || f.Goaway? || f.PipePing? || f.PipeAbandon? || f.PipeStatus?
  }

  lemma ControlFrames(f: Frame)
    requires !f.Repeat?
    ensures IsControl(KindOf(f)) <==> ControlFrame(f)
  {
  }

  lemma ControlDistinct(f: Frame)
    requires ControlFrame(f)
    ensures Distinct(DictEntries(f)) && |DictEntries(f)| <= 5
  {
    hide KindOf;
  }

  lemma StatusReadsBack(f: Frame)
    requires f.PipeStatus?
    ensures ControlOf(PIPE_STATUS, DictEntries(f)) == Some(f)
  {
    hide Get, Distinct;
    ControlDistinct(f);
    GetFirst(DictEntries(f));
  }

  lemma GoawayReadsBack(f: Frame)
    requires f.Goaway?
    ensures ControlOf(GOAWAY, DictEntries(f)) == Some(f)
  {
    hide Get, Distinct;
    ControlDistinct(f);
    GetFirst(DictEntries(f));
  }

  lemma QxPingReadsBack(f: Frame)
    requires f.QxPing?
    ensures ControlOf(QX_PING, DictEntries(f)) == Some(f)
  {
    hide Get, Distinct;
    ControlDistinct(f);
    GetFirst(DictEntries(f));
  }

  lemma PipeAbandonReadsBack(f: Frame)
    requires f.PipeAbandon?
    ensures ControlOf(PIPE_ABANDON, DictEntries(f)) == Some(f)
  {
    hide Get, Distinct;
    ControlDistinct(f);
    GetFirst(DictEntries(f));
  }

  lemma ControlReadsBack(f: Frame)
    requires ControlFrame(f)
    ensures ControlOf(KindOf(f), DictEntries(f)) == Some(f)
  {
    hide DictEntries;
    if f.PipeStatus? {
      StatusReadsBack(f);
    } else if f.Goaway? {
      GoawayReadsBack(f);
    } else if f.QxPing? {
      QxPingReadsBack(f);
    } else if f.PipeAbandon? {
      PipeAbandonReadsBack(f);
    }
  }

  lemma DataDistinct(f: Frame)
    requires f.ConnectionClose? || f.Datagram? || f.QxTransportParameters?
    ensures Distinct(DictEntries(f))
  {
    hide ParamObjs, KindOf;
  }

  lemma CloseReadsBack(f: Frame)
    requires f.ConnectionClose? && (f.app <==> f.frameType.None?)
    ensures DataOf(CONNECTION_CLOSE, DictEntries(f)) == Some(f)
  {
    hide Get, Distinct;
    DataDistinct(f);
    GetFirst(DictEntries(f));
  }

  lemma DatagramReadsBack(f: Frame)
    requires f.Datagram? && f.hasLen.Some?
    ensures DataOf(DATAGRAM, DictEntries(f)) == Some(f)
  {
    hide Get, Distinct;
    DataDistinct(f);
    GetFirst(DictEntries(f));
  }

  lemma BlockReadsBack(f: Frame)
    requires f.QxTransportParameters? && TpsWellFormed(f.params)
    ensures DataOf(QX_TRANSPORT_PARAMETERS, DictEntries(f)) == Some(f)
  {
    hide Get, Distinct, ParamsOf, ParamObjs, ValidTps;
    DataDistinct(f);
    GetFirst(DictEntries(f));
    ParamsReadBack(f.params);
  }

  lemma StreamDistinct(f: Frame)
    requires f.Stream? && f.hasOff.Some? && f.hasLen.Some?
    ensures Distinct(DictEntries(f)) && |DictEntries(f)| == 7
  {
    hide KindOf;
  }

  lemma StreamReadsBack(f: Frame)
    requires f.Stream? && f.hasOff.Some? && f.hasLen.Some?
    ensures DataOf(STREAM, DictEntries(f)) == Some(f)
  {
    hide Get, Distinct, KindOf;
    StreamDistinct(f);
    GetFirst(DictEntries(f));
    GetAt(DictEntries(f), 5);
    GetAt(DictEntries(f), 6);
  }

  lemma DataReadsBack(f: Frame)
    requires FrameWellFormed(f) && IsData(KindOf(f))
    ensures DataOf(KindOf(f), DictEntries(f)) == Some(f)
  {
    hide DataOf, DictEntries, Encodable, TpsWellFormed;
    match f
    case Stream(_, _, _, _, _, _) => StreamReadsBack(f);
    case ConnectionClose(_, _, _, _) => CloseReadsBack(f);
    case Datagram(_, _) => DatagramReadsBack(f);
    case QxTransportParameters(_) => BlockReadsBack(f);
  }

  lemma OtherDistinct(f: Frame)
    requires f.Padding? || f.PriorityUpdate? || f.PipeAck? || f.PipeLane?
    ensures Distinct(DictEntries(f))
  {
    hide AckObjs, KindOf;
  }

  lemma PlainReadsBack(f: Frame)
    requires f.Padding? || f.PriorityUpdate? || f.PipeLane?
    ensures OtherOf(KindOf(f), DictEntries(f)) == Some(f)
  {
    hide Get, Distinct, AcksOf;
    OtherDistinct(f);
    GetFirst(DictEntries(f));
  }

  lemma AckFrameReadsBack(f: Frame)
    requires f.PipeAck?
    ensures OtherOf(PIPE_ACK, DictEntries(f)) == Some(f)
  {
    hide Get, Distinct, AcksOf, AckObjs;
    OtherDistinct(f);
    GetFirst(DictEntries(f));
    AcksReadBack(f.entries);
  }

  lemma JoinDistinct(f: Frame)
    requires f.PipeJoin?
    ensures Distinct(DictEntries(f)) && |DictEntries(f)| == 9
  {
    hide KindOf;
  }

  lemma JoinEntries(f: Frame)
    requires f.PipeJoin?
    ensures var (es, j) := (DictEntries(f), f.join);
            && |es| == 9 && es[1] == Entry(KLocator, Raw(j.locator)) && es[2] == Int(KPipe, j.pipe)
            && es[3] == Entry(KDirection, Str(DirectionText(j.direction)))
            && es[4] == Flag(KCarrierBound, j.carrierBound) && es[5] == Flag(KStandby, j.standby)
            && es[6] == Int(KFateGroup, j.fateGroup) && es[7] == Int(KPriority, j.priority)
            && es[8] == Entry(KToken, Raw(j.token))
  {
  }

  lemma JoinReadsBack(f: Frame)
    requires f.PipeJoin?
    ensures OtherOf(PIPE_JOIN, DictEntries(f)) == Some(f)
  {
    hide Get, Distinct, DictEntries;
    var es := DictEntries(f);
    JoinDistinct(f);
    JoinEntries(f);
    GetFirst(es);
    GetAt(es, 5);
    GetAt(es, 6);
    GetAt(es, 7);
    GetAt(es, 8);
  }

  lemma GetHead(es: seq<Entry>)
    requires es != []
    ensures Get(es, es[0].key) == Some(es[0].val)
  {
  }

  lemma TypeFirst(f: Frame)
    requires !f.Repeat?
    ensures FrameDict(f) == Dict(DictEntries(f)) && Get(DictEntries(f), KType) == Some(Str(FrameText(KindOf(f))))
  {
    hide FrameEntries, Get;
    GetHead(DictEntries(f));
  }

  /** The dict of a frame that the decoder can return describes that frame. */
  lemma DictReadsBack(f: Frame)
    requires FrameWellFormed(f)
    ensures FrameOf(FrameDict(f)) == Some(f)
  {
    hide Get, CoreOf, ControlOf, DataOf, OtherOf, DictEntries, FrameDict, Encodable;
    TypeFirst(f);
    if IsCore(KindOf(f)) {
      CoreReadsBack(f);
    } else if IsControl(KindOf(f)) {
      ControlFrames(f);
      ControlReadsBack(f);
    } else if IsData(KindOf(f)) {
      DataReadsBack(f);
    } else if f.PipeJoin? {
      JoinReadsBack(f);
    } else if f.PipeAck? {
      AckFrameReadsBack(f);
    } else {
      PlainReadsBack(f);
    }
  }

  function AllWellFormed(fs: seq<Frame>): (r: bool)
    ensures r ==> forall i :: 0 <= i < |fs| ==> !fs[i].Repeat?
    ensures r ==> AllEncodable(fs)
  {
    forall i :: 0 <= i < |fs| ==> FrameWellFormed(fs[i])
  }

  lemma FramesOfCons(o: Obj, f: Frame, objs: seq<Obj>, fs: seq<Frame>)
    requires FrameOf(o) == Some(f) && FramesOf(objs) == Some(fs)
    ensures FramesOf([o] + objs) == Some([f] + fs)
  {
    hide FrameOf;
    assert ([o] + objs)[1..] == objs;
  }

  lemma DictsUnfold(fs: seq<Frame>)
    requires fs != [] && AllWellFormed(fs)
    ensures FrameDicts(fs) == [FrameDict(fs[0])] + FrameDicts(fs[1..])
  {
    hide FrameWellFormed, FrameDict, AllWellFormed;
  }

  lemma FirstAndRest(fs: seq<Frame>)
    requires AllWellFormed(fs) && fs != []
    ensures FrameWellFormed(fs[0]) && AllWellFormed(fs[1..]) && fs == [fs[0]] + fs[1..]
    ensures FrameDicts(fs) == [FrameDict(fs[0])] + FrameDicts(fs[1..])
  {
    hide FrameWellFormed, FrameDict, Encodable, FrameDicts;
    DictsUnfold(fs);
  }

  lemma NoDicts(fs: seq<Frame>)
    requires fs == []
    ensures FramesOf(FrameDicts(fs)) == Some(fs)
  {
  }

  lemma {:induction false} DictsReadBack(fs: seq<Frame>)
    requires AllWellFormed(fs)
    ensures FramesOf(FrameDicts(fs)) == Some(fs)
  {
    hide FrameOf, FrameDict, FrameWellFormed, FramesOf, AllWellFormed, FrameDicts;
    if fs == [] {
      NoDicts(fs);
    } else {
      FirstAndRest(fs);
      DictReadsBack(fs[0]);
      DictsReadBack(fs[1..]);
      FramesOfCons(FrameDict(fs[0]), fs[0], FrameDicts(fs[1..]), fs[1..]);
    }
  }

  /** Frames that went through JSON encode to the same bytes. */
  lemma JsonEncodesAlike(fs: seq<Frame>)
    requires AllWellFormed(fs)
    ensures FromJson(ToJson(List(FrameDicts(fs)))).Some?
    ensures MessageBytesOf(FromJson(ToJson(List(FrameDicts(fs)))).value) == Some(WireAll(fs))
  {
    hide FrameDicts, WireAll, FromJson, ToJson, FrameWellFormed;
    FramesSurviveJson(fs);
    DictsReadBack(fs);
  }

  // ---------------------------------------------------------------- keys that may be absent

  /** Python's falsy values. */
  lemma FalsyValues(o: Obj)
    ensures !Truthy(o) <==> o in {Null, Bool(false), Num(0), Str(Chars("")), Raw([]), List([]), Dict([])}
  {
  }

  /** Where bytes are wanted, None counts as no bytes; an absent key does where it is optional. */
  lemma BytesWanted(es: seq<Entry>, k: Key, b: Bytes)
    ensures RawAt(es, k) == Some(b) <==> Get(es, k) == Some(Raw(b)) || (Get(es, k) == Some(Null) && b == [])
    ensures RawOr(es, k) == Some(b) <==> RawAt(es, k) == Some(b) || (Get(es, k) == None && b == [])
  {
    hide Get;
  }

  /** What encode_frame makes of dicts without their optional keys. */
  lemma AbsentKeys(es: seq<Entry>)
    ensures Get(es, KCount).None? ==> OtherOf(PADDING, es) == Some(Padding(1))
    ensures Get(es, KOff).None? && Get(es, KData).None? && Get(es, KHasOff).None? && Get(es, KHasLen).None?
            && Get(es, KFin).None? && IntAt(es, KId).Some? ==>
              DataOf(STREAM, es) == Some(Stream(IntAt(es, KId).value, 0, None, None, false, []))
    ensures Get(es, KApp).None? && Get(es, KFrameType).None? && Get(es, KReason).None? && IntAt(es, KCode).Some? ==>
              DataOf(CONNECTION_CLOSE, es) == Some(ConnectionClose(false, IntAt(es, KCode).value, Some(0), []))
    ensures Get(es, KData).None? && Get(es, KHasLen).None? ==> DataOf(DATAGRAM, es) == Some(Datagram(None, []))
    ensures Get(es, KResponse).None? && IntAt(es, KSeq).Some? ==>
              ControlOf(QX_PING, es) == Some(QxPing(false, IntAt(es, KSeq).value))
    ensures Get(es, KIncremental).None? && IntAt(es, KId).Some? && IntAt(es, KSeq).Some?
            && IntAt(es, KUrgency).Some? ==>
              OtherOf(PRIORITY_UPDATE, es) ==
                Some(PriorityUpdate(IntAt(es, KId).value, IntAt(es, KSeq).value, IntAt(es, KUrgency).value, false))
  {
    hide Get;
  }

  /** And of a PIPE_STATUS. */
  lemma StatusDefaults(es: seq<Entry>)
    requires Get(es, KPriority).None?
    ensures match ControlOf(PIPE_STATUS, es) {
              case Some(PipeStatus(_, _, _, priority)) => priority == 0
              case _ => true
            }
  {
    hide Get;
  }

  /** And of a PIPE_JOIN. */
  lemma JoinDefaults(es: seq<Entry>)
    requires Get(es, KPriority).None? && Get(es, KCarrierBound).None? && Get(es, KStandby).None?
    ensures match OtherOf(PIPE_JOIN, es) {
              case Some(PipeJoin(j)) => j.priority == 0 && !j.carrierBound && !j.standby
              case _ => true
            }
  {
    hide Get;
  }

  /** What it raises KeyError for. */
  lemma RequiredKeys(kind: FrameKind, es: seq<Entry>)
    ensures FrameOfKind(kind, es).Some? ==>
              && (kind in {RESET_STREAM, RESET_STREAM_AT, STOP_SENDING, STREAM, MAX_STREAM_DATA} ==>
                    IntAt(es, KId).Some?)
              && (kind in {STREAM_DATA_BLOCKED, PRIORITY_UPDATE} ==> IntAt(es, KId).Some?)
              && (kind in {RESET_STREAM, RESET_STREAM_AT, STOP_SENDING, CONNECTION_CLOSE, GOAWAY, PIPE_ABANDON} ==>
                    IntAt(es, KCode).Some?)
              && (kind in {MAX_STREAMS, STREAMS_BLOCKED} ==> Get(es, KBidi).Some?)
              && (kind in {PIPE_JOIN, PIPE_LANE, PIPE_ABANDON, PIPE_STATUS} ==> IntAt(es, KPipe).Some?)
              && (kind.PIPE_JOIN? ==>
                    && Get(es, KLocator).Some? && Get(es, KToken).Some? && Get(es, KDirection).Some?
                    && IntAt(es, KFateGroup).Some?)
              && (kind.PIPE_LANE? ==> Get(es, KLaneKey).Some? && IntAt(es, KLane).Some?)
              && (kind in {QX_PING, PRIORITY_UPDATE, PIPE_STATUS} ==> IntAt(es, KSeq).Some?)
              && (kind.PIPE_ACK? ==> Get(es, KAckEntries).Some?)
              && (kind.QX_TRANSPORT_PARAMETERS? ==> Get(es, KParams).Some?)
  {
    hide Get, ParamsOf, AcksOf;
  }
}
