/** A blurred frame is encodable when the frame is, and as long unless it is a PADDING or a REPEAT
    (tools/zmuxwire/frames.py lines 225-300). */
module BlurredLengths {
  import opened Varint
  import opened Registry
  import opened Fields
  import opened TransportParameters
  import opened Frames
  import opened Placeholders
  import opened BlurredDicts

  // ---------------------------------------------------------------- fields and parameters

  lemma BlurKeepsWidth(n: int)
    ensures IsVarint(Blur(n)) <==> IsVarint(n)
    ensures IsVarint(n) ==> VarintLen(Blur(n)) == VarintLen(n)
    ensures n < 0x4000 ==> Blur(n) == n
    ensures 0 <= Blur(n) < 256 <==> 0 <= n < 256
  {
  }

  function BlurField(f: Field): Field {
    match f
    case FVarint(n) => FVarint(Blur(n))
    case FEntries(es) => FEntries(BlurAcks(es))
    case _ => f
  }

  function BlurFields(fs: FieldList): FieldList {
    if fs.FNil? then FNil else FCons(BlurField(fs.head), BlurFields(fs.tail))
  }

  lemma AckAsLong(e: AckEntry)
    ensures EntryInRange(BlurAck(e)) <==> EntryInRange(e)
    ensures EntryInRange(e) ==> |PrintEntry(BlurAck(e))| == |PrintEntry(e)|
  {
    hide EncV, Blur;
    BlurKeepsWidth(e.pipe);
    BlurKeepsWidth(e.lane);
    BlurKeepsWidth(e.position);
    BlurKeepsWidth(e.delay);
  }

  lemma RangeSplits(es: seq<AckEntry>)
    requires es != []
    ensures EntriesInRange(es) <==> EntryInRange(es[0]) && EntriesInRange(es[1..])
  {
    hide EntryInRange;
    if EntryInRange(es[0]) && EntriesInRange(es[1..]) {
      assert es == [es[0]] + es[1..];
    }
  }

  lemma {:induction false} AcksAsLong(es: seq<AckEntry>)
    ensures EntriesInRange(BlurAcks(es)) <==> EntriesInRange(es)
    ensures EntriesInRange(es) ==> |PrintEntries(BlurAcks(es))| == |PrintEntries(es)|
  {
    hide EntryInRange, PrintEntry, BlurAck;
    if es == [] {
    } else {
      AckAsLong(es[0]);
      AcksAsLong(es[1..]);
      RangeSplits(es);
      RangeSplits(BlurAcks(es));
      assert BlurAcks(es)[1..] == BlurAcks(es[1..]);
    }
  }

  lemma FieldAsLong(f: Field)
    ensures Printable(BlurField(f)) <==> Printable(f)
    ensures Printable(f) ==> |PrintField(BlurField(f))| == |PrintField(f)|
  {
    hide EncV, EntriesInRange, PrintEntries, BlurAcks, Blur;
    match f
    case FVarint(n) => BlurKeepsWidth(n);
    case FEntries(es) => AcksAsLong(es);
    case _ =>
  }

  lemma {:induction false} FieldsAsLong(fs: FieldList)
    ensures AllPrintable(BlurFields(fs)) <==> AllPrintable(fs)
    ensures AllPrintable(fs) ==> |Print(BlurFields(fs))| == |Print(fs)|
  {
    hide Printable, PrintField, BlurField;
    if fs.FCons? {
      FieldAsLong(fs.head);
      FieldsAsLong(fs.tail);
    }
  }

  lemma NonceAsLong(nonce: int)
    ensures 0 <= Blur(nonce) < Pow256(8) <==> 0 <= nonce < Pow256(8)
  {
    PowersOf256();
  }

  lemma ValueAsLong(name: TpName, value: TpValue)
    ensures ValueEncodable(name, BlurValue(value)) <==> ValueEncodable(name, value)
    ensures ValueEncodable(name, value) ==> |ValueBytes(name, BlurValue(value))| == |ValueBytes(name, value)|
  {
    hide EncV, Blur, TpFormatOf, ToBytes;
    assert 0x4000_0000 < Pow256(8) by { PowersOf256(); }
    match value
    case VarintValue(n) => BlurKeepsWidth(n);
    case RoleValue(Auto(nonce)) => NonceAsLong(nonce);
    case MultipathValue(flags, _, _) => BlurKeepsWidth(flags);
    case LanesValue(n, _) => BlurKeepsWidth(n);
    case _ =>
  }

  lemma ParamAsLong(p: Param)
    ensures ParamEncodable(BlurParam(p)) <==> ParamEncodable(p)
    ensures ParamEncodable(p) ==> |ParamBytes(BlurParam(p))| == |ParamBytes(p)|
  {
    hide EncV, Blur, ValueEncodable, ValueBytes, BlurValue;
    match p
    case Known(name, value) => ValueAsLong(name, value);
    case Opaque(id, _) => BlurKeepsWidth(id);
  }

  lemma ParamsSplit(ps: seq<Param>)
    requires ps != []
    ensures ParamsEncodable(ps) <==> ParamEncodable(ps[0]) && ParamsEncodable(ps[1..])
  {
    hide ParamEncodable;
    if ParamEncodable(ps[0]) && ParamsEncodable(ps[1..]) {
      assert ps == [ps[0]] + ps[1..];
    }
  }

  lemma {:induction false} ParamsAsLong(ps: seq<Param>)
    ensures ParamsEncodable(BlurParams(ps)) <==> ParamsEncodable(ps)
    ensures ParamsEncodable(ps) ==> |TpsBytes(BlurParams(ps))| == |TpsBytes(ps)|
  {
    hide ParamEncodable, ParamBytes, BlurParam;
    if ps == [] {
    } else {
      ParamAsLong(ps[0]);
      ParamsAsLong(ps[1..]);
      ParamsSplit(ps);
      ParamsSplit(BlurParams(ps));
      assert BlurParams(ps)[1..] == BlurParams(ps[1..]);
    }
  }

  lemma VarintsBlurred(a: int, b: int, c: int, d: int)
    ensures BlurFields(V1(d)) == V1(Blur(d)) && BlurFields(V2(c, d)) == V2(Blur(c), Blur(d))
    ensures BlurFields(V3(b, c, d)) == V3(Blur(b), Blur(c), Blur(d))
    ensures BlurFields(V4(a, b, c, d)) == V4(Blur(a), Blur(b), Blur(c), Blur(d))
  {
    hide Blur;
    assert BlurFields(V1(d)) == V1(Blur(d));
    assert BlurFields(V2(c, d)) == V2(Blur(c), Blur(d));
    assert BlurFields(V3(b, c, d)) == V3(Blur(b), Blur(c), Blur(d));
  }

  lemma LastBlurred(f: Field)
    ensures BlurFields(FNil) == FNil && BlurFields(FCons(f, FNil)) == FCons(BlurField(f), FNil)
  {
  }

  lemma TwoBlurred(f: Field, g: Field)
    ensures BlurFields(FCons(f, FCons(g, FNil))) == FCons(BlurField(f), FCons(BlurField(g), FNil))
  {
    LastBlurred(g);
  }

  lemma StreamFieldsBlurred(f: Frame)
    requires f.Stream?
    ensures TypeCode(BlurFrame(f)) == TypeCode(f) && FieldsOf(BlurFrame(f)) == BlurFields(FieldsOf(f))
  {
    assert HasOff(BlurFrame(f)) == HasOff(f);
    hide Blur;
    var data := DataField(HasLen(f), f.data);
    LastBlurred(data);
    TwoBlurred(FVarint(f.off), data);
  }

  lemma CloseFieldsBlurred(f: Frame)
    requires f.ConnectionClose?
    ensures TypeCode(BlurFrame(f)) == TypeCode(f) && FieldsOf(BlurFrame(f)) == BlurFields(FieldsOf(f))
  {
    BlurKeepsWidth(0);
    hide Blur;
    LastBlurred(FVarBytes(f.reason));
    TwoBlurred(FVarint(f.frameType.GetOr(0)), FVarBytes(f.reason));
  }

  lemma JoinFieldsBlurred(f: Frame)
    requires f.PipeJoin?
    ensures TypeCode(BlurFrame(f)) == TypeCode(f) && FieldsOf(BlurFrame(f)) == BlurFields(FieldsOf(f))
  {
    assert JoinFlags(BlurFrame(f).join) == JoinFlags(f.join);
    hide Blur, JoinFlags;
    var fs := JoinFields(f.join);
    TwoBlurred(FVarint(f.join.priority), FFixed(f.join.token));
    assert BlurFields(fs.tail.tail.tail) ==
             FCons(BlurField(fs.tail.tail.tail.head), BlurFields(fs.tail.tail.tail.tail));
    assert BlurFields(fs.tail.tail) == FCons(BlurField(fs.tail.tail.head), BlurFields(fs.tail.tail.tail));
    assert BlurFields(fs.tail) == FCons(BlurField(fs.tail.head), BlurFields(fs.tail.tail));
  }

  lemma PriorityFieldsBlurred(f: Frame)
    requires f.PriorityUpdate? && f.urgency < 0x4000
    ensures TypeCode(BlurFrame(f)) == TypeCode(f) && FieldsOf(BlurFrame(f)) == BlurFields(FieldsOf(f))
  {
    BlurKeepsWidth(f.urgency);
    hide Blur, PriorityByte;
    TwoBlurred(FVarint(f.seqno), FByte(PriorityByte(f.urgency, f.incremental)));
  }

  lemma StatusFieldsBlurred(f: Frame)
    requires f.PipeStatus?
    ensures TypeCode(BlurFrame(f)) == TypeCode(f) && FieldsOf(BlurFrame(f)) == BlurFields(FieldsOf(f))
  {
    BlurKeepsWidth(StatusCode(f.status));
    hide Blur, V4;
    VarintsBlurred(f.pipe, f.seqno, StatusCode(f.status), f.priority);
  }

  lemma LaneFieldsBlurred(f: Frame)
    requires f.PipeLane?
    ensures TypeCode(BlurFrame(f)) == TypeCode(f) && FieldsOf(BlurFrame(f)) == BlurFields(FieldsOf(f))
  {
    hide Blur, V2;
    VarintsBlurred(0, 0, f.pipe, f.lane);
    assert BlurFields(FieldsOf(f)) == FCons(FFixed(f.laneKey), BlurFields(V2(f.pipe, f.lane)));
  }

  lemma CoreFieldsBlurred(f: Frame)
    requires !f.Repeat? && IsCore(KindOf(f))
    ensures TypeCode(BlurFrame(f)) == TypeCode(f) && FieldsOf(BlurFrame(f)) == BlurFields(FieldsOf(f))
  {
    hide Blur, V1, V2, V3, V4, BlurFields;
    match f
    case ResetStream(id, code, size) => VarintsBlurred(0, id, code, size);
    case ResetStreamAt(id, code, size, reliable) => VarintsBlurred(id, code, size, reliable);
    case StopSending(id, code) => VarintsBlurred(0, 0, id, code);
    case MaxData(max) => VarintsBlurred(0, 0, 0, max);
    case MaxStreamData(id, max) => VarintsBlurred(0, 0, id, max);
    case MaxStreams(_, max) => VarintsBlurred(0, 0, 0, max);
    case DataBlocked(limit) => VarintsBlurred(0, 0, 0, limit);
    case StreamDataBlocked(id, limit) => VarintsBlurred(0, 0, id, limit);
    case StreamsBlocked(_, limit) => VarintsBlurred(0, 0, 0, limit);
  }

  lemma PlainFieldsBlurred(f: Frame)
    requires f.Datagram? || f.PipeAck? || f.PipePing? || f.QxPing? || f.Goaway? || f.PipeAbandon?
    ensures TypeCode(BlurFrame(f)) == TypeCode(f) && FieldsOf(BlurFrame(f)) == BlurFields(FieldsOf(f))
  {
    hide Blur, V1, V2, V3, BlurFields;
    match f
    case Datagram(_, data) => LastBlurred(DataField(HasLen(f), data));
    case PipeAck(es) => LastBlurred(FEntries(es));
    case PipePing => LastBlurred(FRest([]));
    case QxPing(_, seqno) => VarintsBlurred(0, 0, 0, seqno);
    case Goaway(bidi, uni, code) => VarintsBlurred(0, bidi, uni, code);
    case PipeAbandon(pipe, code) => VarintsBlurred(0, 0, pipe, code);
  }

  /** The fields of a blurred frame are the blurred fields of the frame, under the same type. */
  lemma FieldsOfBlurred(f: Frame)
    requires !f.Repeat? && !f.Padding? && !f.QxTransportParameters?
    requires f.PriorityUpdate? ==> f.urgency < 0x4000
    ensures TypeCode(BlurFrame(f)) == TypeCode(f) && FieldsOf(BlurFrame(f)) == BlurFields(FieldsOf(f))
  {
    hide Blur, V1, V2, V3, BlurFields, TypeCode, FieldsOf;
    match f
    case Stream(_, _, _, _, _, _) => StreamFieldsBlurred(f);
    case ConnectionClose(_, _, _, _) => CloseFieldsBlurred(f);
    case PipeJoin(_) => JoinFieldsBlurred(f);
    case PriorityUpdate(_, _, _, _) => PriorityFieldsBlurred(f);
    case PipeStatus(_, _, _, _) => StatusFieldsBlurred(f);
    case PipeLane(_, _, _) => LaneFieldsBlurred(f);
    case Datagram(_, _) => PlainFieldsBlurred(f);
    case PipeAck(_) => PlainFieldsBlurred(f);
    case PipePing => PlainFieldsBlurred(f);
    case QxPing(_, _) => PlainFieldsBlurred(f);
    case Goaway(_, _, _) => PlainFieldsBlurred(f);
    case PipeAbandon(_, _) => PlainFieldsBlurred(f);
    case _ => CoreFieldsBlurred(f);
  }

  // ---------------------------------------------------------------- frames

  lemma PlainAsLong(f: Frame)
    requires !f.Repeat? && !f.Padding? && !f.QxTransportParameters?
    requires f.PriorityUpdate? ==> f.urgency < 0x4000
    ensures Encodable(BlurFrame(f)) <==> Encodable(f)
    ensures Encodable(f) ==> |Wire(BlurFrame(f))| == |Wire(f)|
  {
    hide EncV, Print, AllPrintable, FieldsOf, TypeCode, BlurFields, Blur;
    if f.PriorityUpdate? {
      BlurKeepsWidth(f.urgency);
    }
    FieldsOfBlurred(f);
    FieldsAsLong(FieldsOf(f));
  }

  lemma UrgencyStaysLarge(n: int)
    requires n >= 0x4000
    ensures Blur(n) >= 0x4000
  {
  }

  lemma PriorityAsLong(f: Frame)
    requires f.PriorityUpdate?
    ensures Encodable(BlurFrame(f)) <==> Encodable(f)
    ensures Encodable(f) ==> |Wire(BlurFrame(f))| == |Wire(f)|
  {
    hide Wire, AllPrintable, FieldsOf, Blur;
    if f.urgency < 0x4000 {
      PlainAsLong(f);
    } else {
      UrgencyStaysLarge(f.urgency);
    }
  }

  lemma BlockAsLong(f: Frame)
    requires f.QxTransportParameters?
    ensures Encodable(BlurFrame(f)) <==> Encodable(f)
    ensures Encodable(f) ==> |Wire(BlurFrame(f))| == |Wire(f)|
  {
    hide EncV, TpsBytes, ParamsEncodable, BlurParams;
    ParamsAsLong(f.params);
  }

  /** Padding and repetition apart, a blurred frame is encodable when the frame is, and as long. */
  lemma FrameAsLong(f: Frame)
    requires !f.Repeat? && !f.Padding?
    ensures Encodable(BlurFrame(f)) <==> Encodable(f)
    ensures Encodable(f) ==> |Wire(BlurFrame(f))| == |Wire(f)|
  {
    hide Encodable, Wire, BlurFrame;
    match f
    case QxTransportParameters(_) => BlockAsLong(f);
    case PriorityUpdate(_, _, _, _) => PriorityAsLong(f);
    case _ => PlainAsLong(f);
  }

  lemma {:induction false} EncodableBlurred(f: Frame)
    ensures Encodable(BlurFrame(f)) <==> Encodable(f)
  {
    hide AllPrintable, FieldsOf, Blur, ParamsEncodable;
    match f
    case Padding(_) =>
    case Repeat(_, g) => EncodableBlurred(g);
    case _ => FrameAsLong(f);
  }
}
