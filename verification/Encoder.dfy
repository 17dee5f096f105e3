/** encode_tps and encode_frame as they are written: a buffer `out` that grows step by step
    (tools/zmuxwire/frames.py lines 62-105 and 225-320). None stands for a raised ValueError. */
module Encoder {
  import opened Base
  import opened Varint
  import opened Registry
  import opened Fields
  import opened TransportParameters
  import opened Frames
  import opened Canonical

  /** out += _v(value). The ghost list holds the fields still to be written: the first of
      them is written here. */
  method PutV(out: Bytes, value: int, ghost pending: FieldList) returns (r: Option<Bytes>, ghost rest: FieldList)
    requires pending.FCons? && pending.head == FVarint(value)
    ensures rest == pending.tail
    ensures r.Some? <==> IsVarint(value)
    ensures r.Some? ==> r.value == out + EncV(value)
    ensures AllPrintable(pending) <==> r.Some? && AllPrintable(rest)
    ensures AllPrintable(pending) ==> PrintOnto(out, pending) == PrintOnto(r.value, rest)
  {
    hide EncV;
    rest := pending.tail;
    var v;
    v :- EncodeVarint(value, None);
    return Some(out + v), rest;
  }

  // ---------------------------------------------------------------- transport parameters

  method EncodeTpValue(name: TpName, value: TpValue) returns (r: Option<Bytes>)
    ensures r.Some? <==> ValueEncodable(name, value)
    ensures r.Some? ==> r.value == ValueBytes(name, value)
  {
    hide EncV, ToBytes;
    match TpFormatOf(name)
    case VarintFormat =>
      if !value.VarintValue? {
        return None;
      }
      r := EncodeVarint(value.v, None);
    case EmptyFormat => r := Some([]);
    case RoleFormat =>
      if !value.RoleValue? {
        return None;
      }
      match value.role {
        case Initiator => r := EncodeVarint(0, None);
        case Responder => r := EncodeVarint(1, None);
        case Auto(nonce) =>
          if !(0 <= nonce < Pow256(8)) {
            return None;
          }
          r := EncodeVarint(2, None);
          r := Some(r.value + ToBytes(nonce, 8));
      }
    case MultipathFormat =>
      if !value.MultipathValue? || |value.nonce| != 16 || !(0 <= value.flags < 256) || |value.locator| >= 256 {
        return None;
      }
      r := Some([value.flags] + value.nonce + [|value.locator|] + value.locator);
    case LanesFormat =>
      if !value.LanesValue? || |value.laneKey| != LANE_KEY_BYTES {
        return None;
      }
      var out :- EncodeVarint(value.maxLanes, None);
      r := Some(out + value.laneKey);
  }

  lemma {:induction false} TpsBytesAppend(ps: seq<Param>, p: Param)
    requires ParamsEncodable(ps) && ParamEncodable(p)
    ensures ParamsEncodable(ps + [p]) && TpsBytes(ps + [p]) == TpsBytes(ps) + ParamBytes(p)
  {
    hide ParamBytes, ParamEncodable;
    if ps == [] {
      assert ps + [p] == [p] && [p][1..] == [];
    } else {
      TpsBytesAppend(ps[1..], p);
      assert (ps + [p])[1..] == ps[1..] + [p];
    }
  }

  lemma NoParams()
    ensures TpsBytes([]) == []
  {
  }

  /** One round of the loop of encode_tps: id, length, value. */
  method EncodeParam(p: Param) returns (r: Option<Bytes>)
    ensures r.Some? <==> ParamEncodable(p)
    ensures r.Some? ==> r.value == ParamBytes(p)
  {
    hide EncV, ValueBytes, ValueEncodable;
    var val;
    match p {
      case Known(name, value) => val :- EncodeTpValue(name, value);
      case Opaque(_, raw) => val := raw;
    }
    var num :- EncodeVarint(ParamId(p), None);
    if p.Known? {
      assert val == ParamValue(p);
    }
    var len :- EncodeVarint(|val|, None);
    assert num + len + val == num + (len + val);
    return Some(num + len + val);
  }

  method EncodeTps(params: seq<Param>) returns (r: Option<Bytes>)
    ensures r.Some? <==> ParamsEncodable(params)
    ensures r.Some? ==> r.value == TpsBytes(params)
  {
    hide EncV, ParamBytes, TpsBytes, ParamEncodable;
    var out := [];
    var i := 0;
    assert params[..0] == [];
    assert TpsBytes([]) == [] by { NoParams(); }
    while i < |params|
      invariant 0 <= i <= |params|
      invariant ParamsEncodable(params[..i]) && out == TpsBytes(params[..i])
    {
      var bytes :- EncodeParam(params[i]);
      TpsBytesAppend(params[..i], params[i]);
      assert params[..i + 1] == params[..i] + [params[i]];
      out := out + bytes;
      i := i + 1;
    }
    assert params[..i] == params;
    return Some(out);
  }

  // ---------------------------------------------------------------- frames

  ghost predicate Encodes(r: Option<Bytes>, out: Bytes, f: Frame)
    requires !f.Repeat? && !f.Padding?
  {
    if r.Some? then Encodable(f) && r.value == out + Print(FieldsOf(f)) else !Encodable(f)
  }

  lemma Finished(out: Bytes)
    ensures AllPrintable(FNil) && PrintOnto(out, FNil) == out
  {
  }

  /** The branches for frames that hold only varints: those of QUIC. */
  method EncodeCore(start: Bytes, f: Frame) returns (r: Option<Bytes>)
    requires !f.Repeat? && IsCore(KindOf(f))
    ensures Encodes(r, start, f)
  {
    hide EncV, AllPrintable;
    ghost var pending := FieldsOf(f);
    var out := start;
    match f {
      case ResetStream(id, code, finalSize) =>
        out, pending :- PutV(out, id, pending);
        out, pending :- PutV(out, code, pending);
        out, pending :- PutV(out, finalSize, pending);
      case ResetStreamAt(id, code, finalSize, reliableSize) =>
        out, pending :- PutV(out, id, pending);
        out, pending :- PutV(out, code, pending);
        out, pending :- PutV(out, finalSize, pending);
        out, pending :- PutV(out, reliableSize, pending);
      case StopSending(id, code) =>
        out, pending :- PutV(out, id, pending);
        out, pending :- PutV(out, code, pending);
      case MaxData(max) => out, pending :- PutV(out, max, pending);
      case MaxStreamData(id, max) =>
        out, pending :- PutV(out, id, pending);
        out, pending :- PutV(out, max, pending);
      case MaxStreams(_, max) => out, pending :- PutV(out, max, pending);
      case DataBlocked(limit) => out, pending :- PutV(out, limit, pending);
      case StreamDataBlocked(id, limit) =>
        out, pending :- PutV(out, id, pending);
        out, pending :- PutV(out, limit, pending);
      case StreamsBlocked(_, limit) => out, pending :- PutV(out, limit, pending);
    }
    Finished(out);
    return Some(out);
  }

  /** Those of QMux and zmux. */
  method EncodeControl(start: Bytes, f: Frame) returns (r: Option<Bytes>)
    requires !f.Repeat? && IsControl(KindOf(f))
    ensures Encodes(r, start, f)
  {
    hide EncV, AllPrintable;
    ghost var pending := FieldsOf(f);
    var out := start;
    match f {
      case QxPing(_, seqno) => out, pending :- PutV(out, seqno, pending);
      case Goaway(maxBidi, maxUni, code) =>
        out, pending :- PutV(out, maxBidi, pending);
        out, pending :- PutV(out, maxUni, pending);
        out, pending :- PutV(out, code, pending);
      case PipePing =>
      case PipeAbandon(pipe, code) =>
        out, pending :- PutV(out, pipe, pending);
        out, pending :- PutV(out, code, pending);
      case PipeStatus(pipe, seqno, status, priority) =>
        out, pending :- PutV(out, pipe, pending);
        out, pending :- PutV(out, seqno, pending);
        r, pending := PutV(out, match status case Available => 0 case Standby => 1, pending);
        out := r.value;
        out, pending :- PutV(out, priority, pending);
    }
    Finished(out);
    return Some(out);
  }

  /** out += bytes, for a field without a length of its own. */
  ghost method Put(out: Bytes, bytes: Bytes, pending: FieldList) returns (rest: FieldList)
    requires pending.FCons? && Printable(pending.head) && bytes == PrintField(pending.head)
    ensures rest == pending.tail
    ensures AllPrintable(pending) <==> AllPrintable(rest)
    ensures AllPrintable(pending) ==> PrintOnto(out, pending) == PrintOnto(out + bytes, rest)
  {
    hide PrintField;
    rest := pending.tail;
  }

  /** out += _v(len(bytes)) + bytes */
  method PutBytes(out: Bytes, bytes: Bytes, ghost pending: FieldList) returns (r: Option<Bytes>)
    requires pending == FCons(FVarBytes(bytes), FNil)
    ensures AllPrintable(pending) <==> r.Some?
    ensures r.Some? ==> PrintOnto(out, pending) == r.value
  {
    hide EncV;
    var len :- EncodeVarint(|bytes|, None);
    assert PrintField(FVarBytes(bytes)) == len + bytes;
    assert out + (len + bytes) == out + len + bytes;
    Finished(out + len + bytes);
    return Some(out + len + bytes);
  }

  /** The branches that end in a part with a length, or in the rest of the record. */
  method EncodeData(start: Bytes, f: Frame) returns (r: Option<Bytes>)
    requires !f.Repeat? && IsData(KindOf(f))
    ensures Encodes(r, start, f)
  {
    hide EncV, AllPrintable, TpsBytes;
    var out := start;
    if f.QxTransportParameters? {
      var body :- EncodeTps(f.params);
      r := PutBytes(out, body, FieldsOf(f));
      return;
    }
    ghost var pending := FieldsOf(f);
    match f {
      case Stream(id, off, _, _, _, data) =>
        out, pending :- PutV(out, id, pending);
        if HasOff(f) {
          out, pending :- PutV(out, off, pending);
        }
        if HasLen(f) {
          out :- PutBytes(out, data, pending);
        } else {
          pending := Put(out, data, pending);
          out := out + data;
          Finished(out);
        }
      case ConnectionClose(app, code, frameType, reason) =>
        out, pending :- PutV(out, code, pending);
        if !app {
          out, pending :- PutV(out, frameType.GetOr(0), pending);
        }
        out :- PutBytes(out, reason, pending);
      case Datagram(_, data) =>
        if HasLen(f) {
          out :- PutBytes(out, data, pending);
        } else {
          pending := Put(out, data, pending);
          out := out + data;
          Finished(out);
        }
    }
    return Some(out);
  }

  lemma {:induction false} PrintEntriesAppend(es: seq<AckEntry>, e: AckEntry)
    requires EntriesInRange(es) && EntryInRange(e)
    ensures EntriesInRange(es + [e]) && PrintEntries(es + [e]) == PrintEntries(es) + PrintEntry(e)
  {
    hide PrintEntry;
    if es == [] {
      assert es + [e] == [e] && [e][1..] == [];
    } else {
      PrintEntriesAppend(es[1..], e);
      assert (es + [e])[1..] == es[1..] + [e];
    }
  }

  method EncodeEntry(e: AckEntry) returns (r: Option<Bytes>)
    ensures r.Some? <==> EntryInRange(e)
    ensures r.Some? ==> r.value == PrintEntry(e)
  {
    hide EncV;
    var pipe :- EncodeVarint(e.pipe, None);
    var lane :- EncodeVarint(e.lane, None);
    var position :- EncodeVarint(e.position, None);
    var delay :- EncodeVarint(e.delay, None);
    assert pipe + lane + position + delay == pipe + (lane + (position + delay));
    return Some(pipe + lane + position + delay);
  }

  /** The Entry Count and the loop over the entries of a PIPE_ACK. */
  method EncodeEntries(start: Bytes, entries: seq<AckEntry>) returns (r: Option<Bytes>)
    ensures r.Some? <==> Printable(FEntries(entries))
    ensures r.Some? ==> r.value == start + PrintField(FEntries(entries))
  {
    hide EncV, PrintEntry;
    var count :- EncodeVarint(|entries|, None);
    var out := start + count;
    var i := 0;
    while i < |entries|
      invariant 0 <= i <= |entries| && EntriesInRange(entries[..i])
      invariant out == start + count + PrintEntries(entries[..i])
    {
      var entry :- EncodeEntry(entries[i]);
      PrintEntriesAppend(entries[..i], entries[i]);
      assert entries[..i + 1] == entries[..i] + [entries[i]];
      out := out + entry;
      i := i + 1;
    }
    assert entries[..i] == entries;
    assert start + count + PrintEntries(entries) == start + (count + PrintEntries(entries));
    return Some(out);
  }

  lemma NotPrintable(pending: FieldList)
    requires pending.FCons? && !Printable(pending.head)
    ensures !AllPrintable(pending)
  {
  }

  ghost method PutByte(out: Bytes, b: byte, pending: FieldList) returns (rest: FieldList)
    requires pending.FCons? && pending.head == FByte(b)
    ensures rest == pending.tail
    ensures AllPrintable(pending) <==> AllPrintable(rest)
    ensures AllPrintable(pending) ==> PrintOnto(out, pending) == PrintOnto(out + [b], rest)
  {
    rest := Put(out, [b], pending);
  }

  ghost method PutFixed(out: Bytes, bs: Bytes, pending: FieldList) returns (rest: FieldList)
    requires pending.FCons? && pending.head == FFixed(bs)
    ensures rest == pending.tail
    ensures AllPrintable(pending) <==> AllPrintable(rest)
    ensures AllPrintable(pending) ==> PrintOnto(out, pending) == PrintOnto(out + bs, rest)
  {
    rest := Put(out, bs, pending);
  }

  ghost method PutByteBytes(out: Bytes, bs: Bytes, pending: FieldList) returns (rest: FieldList)
    requires pending.FCons? && pending.head == FByteBytes(bs) && |bs| < 256
    ensures rest == pending.tail
    ensures AllPrintable(pending) <==> AllPrintable(rest)
    ensures AllPrintable(pending) ==> PrintOnto(out, pending) == PrintOnto(out + ([|bs|] + bs), rest)
  {
    rest := Put(out, [|bs|] + bs, pending);
  }

  /** encode_join_body; bytes([n]) raises for n above 255. */
  method EncodeJoinBody(start: Bytes, j: Join) returns (r: Option<Bytes>)
    ensures r.Some? <==> AllPrintable(JoinFields(j))
    ensures r.Some? ==> r.value == start + Print(JoinFields(j))
  {
    hide EncV, AllPrintable, PrintField, Print;
    ghost var pending := JoinFields(j);
    if |j.locator| > 255 {
      NotPrintable(pending);
      return None;
    }
    var flags: byte := match j.direction case Up => 0 case Down => 1 case Bidi => 2;
    if j.carrierBound {
      flags := flags + 0x04;
    }
    if j.standby {
      flags := flags + 0x08;
    }
    var out := start + ([|j.locator|] + j.locator);
    pending := PutByteBytes(start, j.locator, pending);
    out, pending :- PutV(out, j.pipe, pending);
    pending := PutByte(out, flags, pending);
    out := out + [flags];
    out, pending :- PutV(out, j.fateGroup, pending);
    out, pending :- PutV(out, j.priority, pending);
    pending := PutFixed(out, j.token, pending);
    out := out + j.token;
    Finished(out);
    return Some(out);
  }

  /** PRIORITY_UPDATE, PIPE_JOIN, PIPE_ACK and PIPE_LANE. */
  method EncodeOther(start: Bytes, f: Frame) returns (r: Option<Bytes>)
    requires !f.Repeat? && IsOther(KindOf(f))
    ensures Encodes(r, start, f)
  {
    hide EncV, AllPrintable, JoinFields, PrintEntries, EntriesInRange;
    var out := start;
    ghost var pending := FieldsOf(f);
    match f {
      case PriorityUpdate(id, seqno, urgency, incremental) =>
        out, pending :- PutV(out, id, pending);
        out, pending :- PutV(out, seqno, pending);
        if !(0 <= urgency <= 7) {
          return None;
        }
        var b: byte := urgency * 0x20 + (if incremental then 0x10 else 0);
        pending := PutByte(out, b, pending);
        out := out + [b];
      case PipeJoin(join) =>
        r := EncodeJoinBody(out, join);
        return;
      case PipeAck(entries) =>
        if !Printable(FEntries(entries)) {
          NotPrintable(pending);
        }
        var bytes :- EncodeEntries(out, entries);
        pending := Put(out, PrintField(FEntries(entries)), pending);
        out := bytes;
      case PipeLane(laneKey, pipe, lane) =>
        if |laneKey| != LANE_KEY_BYTES {
          return None;
        }
        pending := PutFixed(out, laneKey, pending);
        out := out + laneKey;
        out, pending :- PutV(out, pipe, pending);
        out, pending :- PutV(out, lane, pending);
    }
    Finished(out);
    return Some(out);
  }

  /** The branches on the frame's name. */
  method EncodeBody(out: Bytes, f: Frame) returns (r: Option<Bytes>)
    requires !f.Repeat? && !f.Padding?
    ensures r.Some? <==> Encodable(f)
    ensures r.Some? ==> r.value == out + Print(FieldsOf(f))
  {
    hide Encodable, Print, FieldsOf;
    if IsCore(KindOf(f)) {
      r := EncodeCore(out, f);
    } else if IsControl(KindOf(f)) {
      r := EncodeControl(out, f);
    } else if IsData(KindOf(f)) {
      r := EncodeData(out, f);
    } else {
      r := EncodeOther(out, f);
    }
  }

  /** encode_frame: every encodable frame gives its bytes, and nothing else encodes. */
  method EncodeFrame(f: Frame) returns (r: Option<Bytes>)
    ensures r.Some? <==> Encodable(f)
    ensures r.Some? ==> r.value == Wire(f)
    decreases f
  {
    hide EncV, Print, FieldsOf, TypeCode;
    match f {
      case Repeat(n, g) =>
        var one :- EncodeFrame(g);
        return Some(Times(one, n));
      case Padding(n) => return Some(Zeros(n));
      case _ =>
    }
    r := EncodeVarint(TypeCode(f), None);
    r := EncodeBody(r.value, f);
  }

  /** encode_frames. */
  method EncodeFrames(frames: seq<Frame>) returns (r: Option<Bytes>)
    ensures r.Some? <==> AllEncodable(frames)
    ensures r.Some? ==> r.value == WireAll(frames)
  {
    hide Wire, Encodable;
    var out := [];
    var i := 0;
    while i < |frames|
      invariant 0 <= i <= |frames|
      invariant AllEncodable(frames[..i]) && out == WireAll(frames[..i])
    {
      var bytes :- EncodeFrame(frames[i]);
      SingleWire(frames[i]);
      WireAppend(frames[..i], [frames[i]]);
      assert frames[..i + 1] == frames[..i] + [frames[i]];
      out := out + bytes;
      i := i + 1;
    }
    assert frames[..i] == frames;
    return Some(out);
  }
}
