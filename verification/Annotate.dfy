/** The annotator: a second serializer, which lists a frame's bytes field by field
    (tools/zmuxwire/annotate.py lines 8-132 and 157-162). The third column, a note for the
    reader, is not modelled. */
module Annotate {
  import opened Base
  import opened Varint
  import opened Fields
  import opened TransportParameters
  import opened Frames
  import opened Canonical
  import opened Records
  import Encoder

  datatype Row = Row(name: string, bytes: Bytes)

  /** The byte columns, one after the other. */
  function Column(rows: seq<Row>): Bytes {
    if rows == [] then [] else Column(rows[..|rows| - 1]) + rows[|rows| - 1].bytes
  }

  lemma ColumnAdd(rows: seq<Row>, row: Row)
    ensures Column(rows + [row]) == Column(rows) + row.bytes
  {
    assert (rows + [row])[..|rows|] == rows;
  }

  /** out.append(_vf(name, value)), which writes the next field. */
  method AddV(out: seq<Row>, name: string, value: int, ghost pending: FieldList)
    returns (r: Option<seq<Row>>, ghost rest: FieldList)
    requires pending.FCons? && pending.head == FVarint(value)
    ensures rest == pending.tail && (r.Some? <==> IsVarint(value))
    ensures AllPrintable(pending) <==> r.Some? && AllPrintable(rest)
    ensures AllPrintable(pending) ==> PrintOnto(Column(out), pending) == PrintOnto(Column(r.value), rest)
    ensures r.Some? ==> Column(r.value) == Column(out) + EncV(value)
  {
    hide EncV, Column;
    rest := pending.tail;
    var v;
    v :- EncodeVarint(value, None);
    ColumnAdd(out, Row(name, v));
    return Some(out + [Row(name, v)]), rest;
  }

  /** out.append(_bf(name, bytes)), which writes the next field. */
  method AddB(out: seq<Row>, name: string, bytes: Bytes, ghost pending: FieldList)
    returns (r: seq<Row>, ghost rest: FieldList)
    requires pending.FCons? && Printable(pending.head) && PrintField(pending.head) == bytes
    ensures rest == pending.tail
    ensures AllPrintable(pending) <==> AllPrintable(rest)
    ensures AllPrintable(pending) ==> PrintOnto(Column(out), pending) == PrintOnto(Column(r), rest)
  {
    hide Column, PrintField;
    rest := pending.tail;
    ColumnAdd(out, Row(name, bytes));
    r := out + [Row(name, bytes)];
  }

  /** A length row and a row of that many bytes, the last of the frame. */
  method AddLengthAndBytes(out: seq<Row>, lengthName: string, name: string, bytes: Bytes, ghost pending: FieldList)
    returns (r: Option<seq<Row>>)
    requires pending == FCons(FVarBytes(bytes), FNil)
    ensures r.Some? <==> AllPrintable(pending)
    ensures r.Some? ==> Column(r.value) == PrintOnto(Column(out), pending)
  {
    hide EncV, Column;
    var len :- EncodeVarint(|bytes|, None);
    var one := out + [Row(lengthName, len)];
    ColumnAdd(out, Row(lengthName, len));
    ColumnAdd(one, Row(name, bytes));
    assert PrintField(pending.head) == len + bytes;
    AppendAssoc(Column(out), len, bytes);
    Encoder.Finished(Column(out) + (len + bytes));
    return Some(one + [Row(name, bytes)]);
  }

  ghost predicate Lists(r: Option<seq<Row>>, start: seq<Row>, f: Frame)
    requires !f.Repeat? && !f.Padding?
  {
    Encodable(f) ==> r.Some? && Column(r.value) == Column(start) + Print(FieldsOf(f))
  }

  method CoreFields(start: seq<Row>, f: Frame) returns (r: Option<seq<Row>>)
    requires !f.Repeat? && IsCore(KindOf(f))
    ensures Lists(r, start, f)
  {
    hide Column, AllPrintable;
    ghost var pending := FieldsOf(f);
    var out := start;
    match f {
      case ResetStream(id, code, finalSize) =>
        out, pending :- AddV(out, "Stream ID", id, pending);
        out, pending :- AddV(out, "Application Error Code", code, pending);
        out, pending :- AddV(out, "Final Size", finalSize, pending);
      case ResetStreamAt(id, code, finalSize, reliableSize) =>
        out, pending :- AddV(out, "Stream ID", id, pending);
        out, pending :- AddV(out, "Application Error Code", code, pending);
        out, pending :- AddV(out, "Final Size", finalSize, pending);
        out, pending :- AddV(out, "Reliable Size", reliableSize, pending);
      case StopSending(id, code) =>
        out, pending :- AddV(out, "Stream ID", id, pending);
        out, pending :- AddV(out, "Application Error Code", code, pending);
      case MaxData(max) => out, pending :- AddV(out, "Maximum Data", max, pending);
      case MaxStreamData(id, max) =>
        out, pending :- AddV(out, "Stream ID", id, pending);
        out, pending :- AddV(out, "Maximum Stream Data", max, pending);
      case MaxStreams(_, max) => out, pending :- AddV(out, "Maximum Streams", max, pending);
      case DataBlocked(limit) => out, pending :- AddV(out, "Maximum Data", limit, pending);
      case StreamDataBlocked(id, limit) =>
        out, pending :- AddV(out, "Stream ID", id, pending);
        out, pending :- AddV(out, "Maximum Stream Data", limit, pending);
      case StreamsBlocked(_, limit) => out, pending :- AddV(out, "Maximum Streams", limit, pending);
    }
    Encoder.Finished(Column(out));
    return Some(out);
  }

  method ControlFields(start: seq<Row>, f: Frame) returns (r: Option<seq<Row>>)
    requires !f.Repeat? && IsControl(KindOf(f))
    ensures Lists(r, start, f)
  {
    hide Column, AllPrintable;
    ghost var pending := FieldsOf(f);
    var out := start;
    match f {
      case QxPing(_, seqno) => out, pending :- AddV(out, "Sequence Number", seqno, pending);
      case Goaway(maxBidi, maxUni, code) =>
        out, pending :- AddV(out, "Maximum Bidirectional Streams", maxBidi, pending);
        out, pending :- AddV(out, "Maximum Unidirectional Streams", maxUni, pending);
        out, pending :- AddV(out, "Application Protocol Error Code", code, pending);
      case PipePing =>
      case PipeAbandon(pipe, code) =>
        out, pending :- AddV(out, "Pipe ID", pipe, pending);
        out, pending :- AddV(out, "Error Code", code, pending);
      case PipeStatus(pipe, seqno, status, priority) =>
        out, pending :- AddV(out, "Pipe ID", pipe, pending);
        out, pending :- AddV(out, "Sequence Number", seqno, pending);
        r, pending := AddV(out, "Status", if status.Available? then 0 else 1, pending);
        out := r.value;
        out, pending :- AddV(out, "Priority", priority, pending);
    }
    Encoder.Finished(Column(out));
    return Some(out);
  }

  method ParamRow(start: seq<Row>, p: Param) returns (r: Option<seq<Row>>)
    ensures r.Some? <==> ParamEncodable(p)
    ensures r.Some? ==> Column(r.value) == Column(start) + ParamBytes(p)
  {
    hide Column, EncV, ValueBytes, ValueEncodable;
    var val;
    match p {
      case Known(name, value) => val :- Encoder.EncodeTpValue(name, value);
      case Opaque(_, raw) => val := raw;
    }
    var num :- EncodeVarint(ParamId(p), None);
    if p.Known? {
      assert val == ParamValue(p);
    }
    var len :- EncodeVarint(|val|, None);
    var one := start + [Row("ID", num)];
    ColumnAdd(start, Row("ID", num));
    var out := one + [Row("Length", len)];
    ColumnAdd(one, Row("Length", len));
    AppendAssoc(Column(start), num, len);
    AppendAssoc(Column(start), num + len, val);
    AppendAssoc(num, len, val);
    if val != [] {
      ColumnAdd(out, Row("Value", val));
      out := out + [Row("Value", val)];
    } else {
      assert Column(start) + num + len + val == Column(start) + num + len;
    }
    return Some(out);
  }

  /** The rows of a transport-parameter block: id, length, and a value unless it is empty. */
  method ParamRows(start: seq<Row>, params: seq<Param>) returns (r: Option<seq<Row>>)
    ensures r.Some? <==> ParamsEncodable(params)
    ensures r.Some? ==> Column(r.value) == Column(start) + TpsBytes(params)
  {
    hide Column, ParamBytes, TpsBytes, ParamEncodable;
    var out := start;
    var i := 0;
    assert params[..0] == [];
    Encoder.NoParams();
    while i < |params|
      invariant 0 <= i <= |params|
      invariant ParamsEncodable(params[..i]) && Column(out) == Column(start) + TpsBytes(params[..i])
    {
      var next :- ParamRow(out, params[i]);
      Encoder.TpsBytesAppend(params[..i], params[i]);
      AppendAssoc(Column(start), TpsBytes(params[..i]), ParamBytes(params[i]));
      assert params[..i + 1] == params[..i] + [params[i]];
      out := next;
      i := i + 1;
    }
    assert params[..i] == params;
    return Some(out);
  }

  lemma BlockPrintable(body: Bytes)
    ensures AllPrintable(FCons(FVarBytes(body), FNil)) <==> IsVarint(|body|)
    ensures IsVarint(|body|) ==> Print(FCons(FVarBytes(body), FNil)) == EncV(|body|) + body
  {
    hide EncV;
  }

  method BlockFields(start: seq<Row>, params: seq<Param>) returns (r: Option<seq<Row>>)
    ensures Lists(r, start, QxTransportParameters(params))
  {
    hide Column, AllPrintable, TpsBytes, EncV;
    var body :- Encoder.EncodeTps(params);
    ghost var pending := FieldsOf(QxTransportParameters(params));
    BlockPrintable(body);
    var len :- EncodeVarint(|body|, None);
    ColumnAdd(start, Row("Length", len));
    r := ParamRows(start + [Row("Length", len)], params);
    AppendAssoc(Column(start), len, body);
  }

  method DataFields(start: seq<Row>, f: Frame) returns (r: Option<seq<Row>>)
    requires !f.Repeat? && IsData(KindOf(f))
    ensures Lists(r, start, f)
  {
    hide Column, AllPrintable, TpsBytes, EncV;
    var out := start;
    if f.QxTransportParameters? {
      r := BlockFields(out, f.params);
      return;
    }
    ghost var pending := FieldsOf(f);
    match f {
      case Stream(id, off, _, _, _, data) =>
        out, pending :- AddV(out, "Stream ID", id, pending);
        if HasOff(f) {
          out, pending :- AddV(out, "Offset", off, pending);
        }
        if HasLen(f) {
          out :- AddLengthAndBytes(out, "Length", "Stream Data", data, pending);
        } else {
          out, pending := AddB(out, "Stream Data", data, pending);
          Encoder.Finished(Column(out));
        }
      case ConnectionClose(app, code, frameType, reason) =>
        out, pending :- AddV(out, "Error Code", code, pending);
        if !app {
          out, pending :- AddV(out, "Frame Type", frameType.GetOr(0), pending);
        }
        out :- AddLengthAndBytes(out, "Reason Phrase Length", "Reason Phrase", reason, pending);
      case Datagram(_, data) =>
        if HasLen(f) {
          out :- AddLengthAndBytes(out, "Length", "Datagram Data", data, pending);
        } else {
          out, pending := AddB(out, "Datagram Data", data, pending);
          Encoder.Finished(Column(out));
        }
    }
    return Some(out);
  }

  // ---------------------------------------------------------------- PIPE_JOIN and the others

  lemma ByteField(b: byte)
    ensures PrintField(FByte(b)) == [b]
  {
  }

  lemma JoinTail(j: Join)
    ensures JoinInRange(j) ==> AllPrintable(JoinFields(j).tail)
  {
    JoinPrintable(j);
  }

  /** The rows of a join after its locator. */
  method JoinRows(start: seq<Row>, j: Join) returns (r: Option<seq<Row>>)
    ensures r.Some? ==> IsVarint(|j.locator|) && AllPrintable(JoinFields(j).tail)
    ensures JoinInRange(j) ==> r.Some?
    ensures r.Some? ==> Column(r.value) == Column(start) + (EncV(|j.locator|) + j.locator) + Print(JoinFields(j).tail)
  {
    hide Column, EncV, AllPrintable, PrintField;
    var len :- EncodeVarint(|j.locator|, None);
    var out := start + [Row("Locator Length", len)];
    ColumnAdd(start, Row("Locator Length", len));
    ColumnAdd(out, Row("Session Locator", j.locator));
    out := out + [Row("Session Locator", j.locator)];
    AppendAssoc(Column(start), len, j.locator);
    ghost var first := Column(out);
    ghost var pending := JoinFields(j).tail;
    JoinTail(j);
    out, pending :- AddV(out, "Pipe ID", j.pipe, pending);
    var flags: byte := (match j.direction case Up => 0 case Down => 1 case Bidi => 2)
                       + (if j.carrierBound then 0x04 else 0) + (if j.standby then 0x08 else 0);
    assert PrintField(FByte(flags)) == [flags] by { ByteField(flags); }
    out, pending := AddB(out, "Flags", [flags], pending);
    out, pending :- AddV(out, "Fate Group", j.fateGroup, pending);
    out, pending :- AddV(out, "Priority", j.priority, pending);
    assert PrintField(FFixed(j.token)) == j.token by { FixedPrint(j.token); }
    out, pending := AddB(out, "Join Token", j.token, pending);
    Encoder.Finished(Column(out));
    return Some(out);
  }

  /** A one-byte length and a varint length are the same byte exactly below 64. */
  lemma LocatorLength(len: nat)
    requires len < 256
    ensures EncV(len) == [len] <==> len < 64
  {
    assert len < 64 ==> EncV(len) == [len];
  }

  method FourRows(start: seq<Row>, e: AckEntry) returns (r: Option<seq<Row>>)
    ensures r.Some? <==> EntryInRange(e)
    ensures r.Some? ==> Column(r.value) == Column(start) + PrintEntry(e)
  {
    hide Column, EncV;
    var out;
    ghost var rest;
    out, rest :- AddV(start, "Pipe ID", e.pipe, V1(e.pipe));
    out, rest :- AddV(out, "Lane", e.lane, V1(e.lane));
    out, rest :- AddV(out, "Position", e.position, V1(e.position));
    out, rest :- AddV(out, "ACK Delay (us)", e.delay, V1(e.delay));
    ghost var s, p, l, q, d := Column(start), EncV(e.pipe), EncV(e.lane), EncV(e.position), EncV(e.delay);
    assert s + p + l + q + d == s + (p + (l + (q + d)));
    return Some(out);
  }

  /** The entries of a PIPE_ACK, four rows each. */
  method EntryRows(start: seq<Row>, entries: seq<AckEntry>) returns (r: Option<seq<Row>>)
    ensures r.Some? <==> EntriesInRange(entries)
    ensures r.Some? ==> Column(r.value) == Column(start) + PrintEntries(entries)
  {
    hide Column, PrintEntry, EncV;
    var out := start;
    var i := 0;
    while i < |entries|
      invariant 0 <= i <= |entries| && EntriesInRange(entries[..i])
      invariant Column(out) == Column(start) + PrintEntries(entries[..i])
    {
      out :- FourRows(out, entries[i]);
      Encoder.PrintEntriesAppend(entries[..i], entries[i]);
      assert entries[..i + 1] == entries[..i] + [entries[i]];
      AppendAssoc(Column(start), PrintEntries(entries[..i]), PrintEntry(entries[i]));
      i := i + 1;
    }
    assert entries[..i] == entries;
    return Some(out);
  }

  /** The two serializers may differ on this frame: a join whose locator needs a longer varint
      than the one byte the encoder writes. */
  predicate LongLocator(f: Frame) {
    f.PipeJoin? && |f.join.locator| >= 64
  }

  ghost predicate Agrees(r: Option<seq<Row>>, start: seq<Row>, f: Frame)
    requires !f.Repeat? && !f.Padding?
  {
    Encodable(f) ==>
      && r.Some?
      && |Column(r.value)| == |Column(start)| + |Print(FieldsOf(f))| + (if LongLocator(f) then 1 else 0)
      && (!LongLocator(f) ==> Column(r.value) == Column(start) + Print(FieldsOf(f)))
  }

  lemma AckField(es: seq<AckEntry>)
    ensures AllPrintable(FCons(FEntries(es), FNil)) <==> IsVarint(|es|) && EntriesInRange(es)
    ensures IsVarint(|es|) && EntriesInRange(es) ==>
              Print(FCons(FEntries(es), FNil)) == EncV(|es|) + PrintEntries(es)
  {
    hide EncV, PrintEntries, EntriesInRange;
  }

  method AckRows(start: seq<Row>, entries: seq<AckEntry>) returns (r: Option<seq<Row>>)
    ensures Agrees(r, start, PipeAck(entries))
  {
    hide Column, EncV, AllPrintable, PrintEntries, EntriesInRange;
    AckField(entries);
    var count :- EncodeVarint(|entries|, None);
    ColumnAdd(start, Row("Entry Count", count));
    r := EntryRows(start + [Row("Entry Count", count)], entries);
    if r.Some? {
      AppendAssoc(Column(start), count, PrintEntries(entries));
    }
  }

  lemma JoinAgrees(j: Join)
    ensures Encodable(PipeJoin(j)) <==> JoinInRange(j)
    ensures JoinInRange(j) ==>
              var tail := JoinFields(j).tail; var len := EncV(|j.locator|);
              && AllPrintable(JoinFields(j)) && AllPrintable(tail)
              && |Print(JoinFields(j))| == 1 + |j.locator| + |Print(tail)|
              && |len| == (if |j.locator| >= 64 then 2 else 1)
              && (|j.locator| < 64 ==> Print(JoinFields(j)) == len + j.locator + Print(tail))
  {
    hide EncV;
    JoinPrintable(j);
    if JoinInRange(j) {
      LocatorLength(|j.locator|);
      assert Print(JoinFields(j)) == PrintField(FByteBytes(j.locator)) + Print(JoinFields(j).tail);
    }
  }

  method OtherFields(start: seq<Row>, f: Frame) returns (r: Option<seq<Row>>)
    requires !f.Repeat? && IsOther(KindOf(f))
    ensures Agrees(r, start, f)
  {
    hide Column, EncV, AllPrintable, JoinFields, PrintEntries, EntriesInRange;
    var out := start;
    ghost var pending := FieldsOf(f);
    match f {
      case PriorityUpdate(id, seqno, urgency, incremental) =>
        out, pending :- AddV(out, "Stream ID", id, pending);
        out, pending :- AddV(out, "Sequence Number", seqno, pending);
        if !(0 <= urgency <= 7) {
          return None;
        }
        var b: byte := urgency * 0x20 + (if incremental then 0x10 else 0);
        out, pending := AddB(out, "Priority", [b], pending);
      case PipeJoin(join) =>
        r := JoinRows(out, join);
        JoinAgrees(join);
        return;
      case PipeAck(entries) =>
        r := AckRows(out, entries);
        return;
      case PipeLane(laneKey, pipe, lane) =>
        out, pending := AddB(out, "Lane Key", laneKey, pending);
        out, pending :- AddV(out, "Pipe ID", pipe, pending);
        out, pending :- AddV(out, "Lane", lane, pending);
    }
    Encoder.Finished(Column(out));
    return Some(out);
  }

  /** The branches on the frame's name. */
  method BodyFields(start: seq<Row>, f: Frame) returns (r: Option<seq<Row>>)
    requires !f.Repeat? && !f.Padding?
    ensures Agrees(r, start, f)
  {
    hide Print, FieldsOf, Column, Encodable;
    if IsCore(KindOf(f)) {
      r := CoreFields(start, f);
    } else if IsControl(KindOf(f)) {
      r := ControlFields(start, f);
    } else if IsData(KindOf(f)) {
      r := DataFields(start, f);
    } else {
      r := OtherFields(start, f);
    }
  }

  lemma OneRow(row: Row)
    ensures Column([row]) == row.bytes
  {
    ColumnAdd([], row);
    assert [] + [row] == [row];
  }

  /** frame_fields. For every frame that both serializers support, the byte columns are the
      frame's bytes, except for a join with a locator of 64 bytes or more: there the annotator
      writes a longer Locator Length. */
  method FrameFields(f: Frame) returns (r: Option<seq<Row>>)
    ensures f.Repeat? ==> r.None?
    ensures Encodable(f) && !f.Repeat? ==> r.Some?
    ensures Encodable(f) && !f.Repeat? ==> |Column(r.value)| == |Wire(f)| + (if LongLocator(f) then 1 else 0)
    ensures Encodable(f) && !f.Repeat? ==> (Column(r.value) == Wire(f) <==> !LongLocator(f))
  {
    hide EncV, Print, FieldsOf, TypeCode, Column, KindOf;
    if f.Repeat? {
      return None;
    }
    if f.Padding? {
      OneRow(Row("PADDING", Zeros(f.count)));
      return Some([Row("PADDING", Zeros(f.count))]);
    }
    var code := EncodeVarint(TypeCode(f), None);
    OneRow(Row("Type", code.value));
    r := BodyFields([Row("Type", code.value)], f);
  }

  /** A join whose locator has 64 bytes. The decoder would refuse it, but both serializers write it. */
  const LONG_JOIN: Frame := PipeJoin(Join(Zeros(64), 0, Up, false, false, 0, 0, Zeros(16)))

  lemma JoinIsEncodable(j: Join)
    requires JoinInRange(j)
    ensures Encodable(PipeJoin(j))
  {
    hide JoinFields;
    JoinPrintable(j);
  }

  lemma LongJoinIsEncodable()
    ensures Encodable(LONG_JOIN) && LongLocator(LONG_JOIN)
  {
    hide Zeros, Encodable;
    JoinIsEncodable(LONG_JOIN.join);
  }

  /** They write it differently. */
  method AnnotateLongJoin() returns (rows: seq<Row>)
    ensures Encodable(LONG_JOIN) && |Column(rows)| == |Wire(LONG_JOIN)| + 1
  {
    hide Column, Wire, Encodable, Zeros;
    LongJoinIsEncodable();
    var r := FrameFields(LONG_JOIN);
    rows := r.value;
  }

  lemma NoRows()
    ensures Column([]) == []
  {
  }

  lemma {:induction false} ColumnAppend(a: seq<Row>, b: seq<Row>)
    ensures Column(a + b) == Column(a) + Column(b)
  {
    if b == [] {
      assert a + b == a;
    } else {
      var init, last := b[..|b| - 1], b[|b| - 1];
      assert a + b == a + init + [last];
      ColumnAdd(a + init, last);
      ColumnAppend(a, init);
      AppendAssoc(Column(a), Column(init), last.bytes);
    }
  }

  predicate NoRepeat(fs: seq<Frame>) {
    forall i :: 0 <= i < |fs| ==> !fs[i].Repeat?
  }

  predicate ShortLocators(fs: seq<Frame>) {
    forall i :: 0 <= i < |fs| ==> !LongLocator(fs[i])
  }

  lemma ShortStep(fs: seq<Frame>, f: Frame)
    ensures ShortLocators(fs + [f]) <==> ShortLocators(fs) && !LongLocator(f)
  {
    var gs := fs + [f];
    assert gs[|fs|] == f && forall i :: 0 <= i < |fs| ==> gs[i] == fs[i];
  }

  /** record_fields: the Size of the encoded frames, then the rows of each frame. The byte
      columns are the encoded record exactly when no join has a long locator. */
  method RecordFields(frames: seq<Frame>) returns (r: Option<seq<Row>>)
    ensures RecordEncodable(frames) && NoRepeat(frames) ==> r.Some?
    ensures RecordEncodable(frames) && NoRepeat(frames) ==>
              (Column(r.value) == RecordWire(frames) <==> ShortLocators(frames))
  {
    hide EncV, Column, Wire, Encodable;
    var body :- Encoder.EncodeFrames(frames);
    var size :- EncodeVarint(|body|, None);
    var out := [Row("Record Size", size)];
    ColumnAdd([], Row("Record Size", size));
    NoRows();
    assert [] + [Row("Record Size", size)] == out;
    var i := 0;
    while i < |frames|
      invariant 0 <= i <= |frames| && NoRepeat(frames[..i]) && AllEncodable(frames[..i])
      invariant |Column(out)| >= |size| + |WireAll(frames[..i])|
      invariant |Column(out)| == |size| + |WireAll(frames[..i])| <==> ShortLocators(frames[..i])
      invariant ShortLocators(frames[..i]) ==> Column(out) == size + WireAll(frames[..i])
    {
      var f := frames[i];
      var rows := FrameFields(f);
      if rows.None? {
        return None;
      }
      ColumnAppend(out, rows.value);
      SingleWire(f);
      WireAppend(frames[..i], [f]);
      AppendAssoc(size, WireAll(frames[..i]), Wire(f));
      assert frames[..i + 1] == frames[..i] + [f];
      ShortStep(frames[..i], f);
      out := out + rows.value;
      i := i + 1;
    }
    assert frames[..i] == frames;
    return Some(out);
  }
}
