/** decode_frame and decode_frames as they are written: a cursor that moves over a buffer, checks in
    the order of the source, and an early exit at the first error
    (tools/zmuxwire/frames.py lines 334-532). */
module Decoder {
  import opened Base
  import opened Varint
  import opened Registry
  import opened Fields
  import opened TransportParameters
  import opened Frames
  import opened Canonical
  import opened BlockDecoder
  import opened BodyReader
  import opened PipeDecoder

  // ---------------------------------------------------------------- frame bodies

  /** The branches for frames of QUIC that hold only varints. */
  method DecodeCore(kind: FrameKind, code: vint, buf: Bytes, start: nat, end: nat)
    returns (r: Result<Frame>, pos: nat)
    requires end <= |buf| && IsCore(kind)
    ensures Decodes(r, pos, kind, code, buf, start, end)
  {
    hide Parse, Slice, BuildControl, BuildData, BuildOther;
    match kind {
      case RESET_STREAM =>
        var v;
        v, pos :- ReadV3(buf, start, end);
        return Ok(ResetStream(v.0, v.1, v.2)), pos;
      case RESET_STREAM_AT =>
        var v;
        v, pos :- ReadV4(buf, start, end);
        if v.3 > v.2 {
          return Err(FrameEncodingError), pos;
        }
        return Ok(ResetStreamAt(v.0, v.1, v.2, v.3)), pos;
      case STOP_SENDING =>
        var v;
        v, pos :- ReadV2(buf, start, end);
        return Ok(StopSending(v.0, v.1)), pos;
      case MAX_DATA =>
        var max;
        max, pos :- ReadV1(buf, start, end);
        return Ok(MaxData(max)), pos;
      case MAX_STREAM_DATA =>
        var v;
        v, pos :- ReadV2(buf, start, end);
        return Ok(MaxStreamData(v.0, v.1)), pos;
      case MAX_STREAMS =>
        var max;
        max, pos :- ReadV1(buf, start, end);
        if max > MAX_STREAM_COUNT {
          return Err(FrameEncodingError), pos;
        }
        return Ok(MaxStreams(code == 0x12, max)), pos;
      case DATA_BLOCKED =>
        var limit;
        limit, pos :- ReadV1(buf, start, end);
        return Ok(DataBlocked(limit)), pos;
      case STREAM_DATA_BLOCKED =>
        var v;
        v, pos :- ReadV2(buf, start, end);
        return Ok(StreamDataBlocked(v.0, v.1)), pos;
      case STREAMS_BLOCKED =>
        var limit;
        limit, pos :- ReadV1(buf, start, end);
        if limit > MAX_STREAM_COUNT {
          return Err(FrameEncodingError), pos;
        }
        return Ok(StreamsBlocked(code == 0x16, limit)), pos;
    }
  }

  lemma BuildStatus(code: vint, pipe: vint, seqno: vint, st: vint, priority: vint)
    ensures Build(PIPE_STATUS, code, V4(pipe, seqno, st, priority)) ==
              if st > 1 then Err(FrameEncodingError)
              else Ok(PipeStatus(pipe, seqno, if st == 0 then Available else Standby, priority))
  {
  }

  method DecodeStatus(code: vint, buf: Bytes, start: nat, end: nat) returns (r: Result<Frame>, pos: nat)
    requires end <= |buf|
    ensures Decodes(r, pos, PIPE_STATUS, code, buf, start, end)
  {
    hide Parse, Slice, Build;
    var v;
    v, pos :- ReadV4(buf, start, end);
    BuildStatus(code, v.0, v.1, v.2, v.3);
    if v.2 != 0 && v.2 != 1 {
      return Err(FrameEncodingError), pos;
    }
    return Ok(PipeStatus(v.0, v.1, if v.2 == 0 then Available else Standby, v.3)), pos;
  }

  /** Those of QMux and zmux. */
  method DecodeControl(kind: FrameKind, code: vint, buf: Bytes, start: nat, end: nat)
    returns (r: Result<Frame>, pos: nat)
    requires end <= |buf| && IsControl(kind)
    ensures Decodes(r, pos, kind, code, buf, start, end)
  {
    hide Parse, Slice, BuildCore, BuildData, BuildOther;
    match kind {
      case QX_PING =>
        var seqno;
        seqno, pos :- ReadV1(buf, start, end);
        return Ok(QxPing(code == QX_PING_RESPONSE_TYPE, seqno)), pos;
      case GOAWAY =>
        var v;
        v, pos :- ReadV3(buf, start, end);
        if v.0 > MAX_STREAM_COUNT || v.1 > MAX_STREAM_COUNT {
          return Err(FrameEncodingError), pos;
        }
        return Ok(Goaway(v.0, v.1, v.2)), pos;
      case PIPE_PING =>
        EndParse(Slice(buf, start, end));
        return Ok(PipePing), start;
      case PIPE_ABANDON =>
        var v;
        v, pos :- ReadV2(buf, start, end);
        return Ok(PipeAbandon(v.0, v.1)), pos;
      case PIPE_STATUS => r, pos := DecodeStatus(code, buf, start, end);
    }
  }

  // The values that the branches with a part of bytes build.

  lemma BuildDataFrames(code: vint, id: vint, off: vint, data: Bytes)
    ensures Build(STREAM, code, FCons(FVarint(id), FCons(FVarBytes(data), FNil))) == BuildStream(code, id, 0, data)
    ensures Build(STREAM, code, FCons(FVarint(id), FCons(FRest(data), FNil))) == BuildStream(code, id, 0, data)
    ensures Build(STREAM, code, FCons(FVarint(id), FCons(FVarint(off), FCons(FVarBytes(data), FNil)))) ==
              BuildStream(code, id, off, data)
    ensures Build(STREAM, code, FCons(FVarint(id), FCons(FVarint(off), FCons(FRest(data), FNil)))) ==
              BuildStream(code, id, off, data)
  {
  }

  method DecodeStreamBody(code: vint, buf: Bytes, start: nat, end: nat) returns (r: Result<Frame>, pos: nat)
    requires end <= |buf|
    ensures Decodes(r, pos, STREAM, code, buf, start, end)
  {
    hide Parse, Slice, Build, DecV, OffBit, LenBit, FinBit;
    var id, off, data;
    off := 0;
    ghost var rest;
    id, pos, rest :- ReadV(buf, start, end, ShapeOf(STREAM, code));
    var hasOff, hasLen := OffBit(code), LenBit(code);
    if hasOff {
      off, pos, rest :- ReadV(buf, pos, end, rest);
    }
    if hasLen {
      data, pos :- ReadVarBytes(buf, pos, end);
    } else {
      data, pos := ReadRest(buf, pos, end);
    }
    BuildDataFrames(code, id, off, data);
    if off + |data| > MAX_VARINT {
      return Err(FrameEncodingError), pos;
    }
    return Ok(Stream(id, off, Some(hasOff), Some(hasLen), FinBit(code), data)), pos;
  }

  lemma BuildClose(code: vint, c: vint, frameType: vint, reason: Bytes)
    ensures Build(CONNECTION_CLOSE, code, FCons(FVarint(c), FCons(FVarBytes(reason), FNil))) ==
              Ok(ConnectionClose(true, c, None, reason))
    ensures Build(CONNECTION_CLOSE, code,
                  FCons(FVarint(c), FCons(FVarint(frameType), FCons(FVarBytes(reason), FNil)))) ==
              Ok(ConnectionClose(false, c, Some(frameType), reason))
  {
  }

  method DecodeClose(code: vint, buf: Bytes, start: nat, end: nat) returns (r: Result<Frame>, pos: nat)
    requires end <= |buf|
    ensures Decodes(r, pos, CONNECTION_CLOSE, code, buf, start, end)
  {
    hide Parse, Slice, Build, DecV;
    var app := code == 0x1D;
    var c, frameType, reason;
    ghost var rest;
    c, pos, rest :- ReadV(buf, start, end, ShapeOf(CONNECTION_CLOSE, code));
    frameType := 0;
    if !app {
      frameType, pos, rest :- ReadV(buf, pos, end, rest);
    }
    reason, pos :- ReadVarBytes(buf, pos, end);
    BuildClose(code, c, frameType, reason);
    return Ok(ConnectionClose(app, c, if app then None else Some(frameType), reason)), pos;
  }

  /** A DATAGRAM without Length whose type ends past `end`. */
  predicate RestFromPastEnd(kind: FrameKind, code: vint, start: nat, end: nat) {
    kind == DATAGRAM && code != 0x31 && end < start
  }

  /** The branches that end in a part with a length, or in the rest of the record. */
  method DecodeData(kind: FrameKind, code: vint, buf: Bytes, start: nat, end: nat)
    returns (r: Result<Frame>, pos: nat)
    requires end <= |buf| && IsData(kind)
    ensures if RestFromPastEnd(kind, code, start, end) then r == Ok(Datagram(Some(false), [])) && pos == end
            else Decodes(r, pos, kind, code, buf, start, end)
  {
    hide Parse, Slice, BuildCore, BuildControl, BuildOther, DecodeTpsSpec;
    match kind {
      case STREAM => r, pos := DecodeStreamBody(code, buf, start, end);
      case CONNECTION_CLOSE => r, pos := DecodeClose(code, buf, start, end);
      case DATAGRAM =>
        var data;
        if code == 0x31 {
          data, pos :- ReadVarBytes(buf, start, end);
        } else {
          data, pos := ReadRest(buf, start, end);
        }
        return Ok(Datagram(Some(code == 0x31), data)), pos;
      case QX_TRANSPORT_PARAMETERS =>
        var block, params;
        block, pos :- ReadVarBytes(buf, start, end);
        params :- DecodeTps(block);
        return Ok(QxTransportParameters(params)), pos;
    }
  }

  // ---------------------------------------------------------------- decode_frame and decode_frames

  /** The branches on the frame's name. */
  method DecodeBranch(kind: FrameKind, code: vint, buf: Bytes, frameStart: nat, start: nat, end: nat)
    returns (r: Result<Frame>, pos: nat)
    requires end <= |buf| && kind != PADDING && frameStart <= start
    requires kind == PIPE_JOIN ==> start <= frameStart + 4
    ensures if RestFromPastEnd(kind, code, start, end) then r == Ok(Datagram(Some(false), [])) && pos == end
            else Decodes(r, pos, kind, code, buf, start, end)
  {
    hide DecodeBody;
    if IsCore(kind) {
      r, pos := DecodeCore(kind, code, buf, start, end);
    } else if IsControl(kind) {
      r, pos := DecodeControl(kind, code, buf, start, end);
    } else if IsData(kind) {
      r, pos := DecodeData(kind, code, buf, start, end);
    } else if kind == PRIORITY_UPDATE {
      r, pos := DecodePriority(code, buf, start, end);
    } else if kind == PIPE_JOIN {
      r, pos := DecodeJoin(code, buf, frameStart, start, end);
    } else if kind == PIPE_ACK {
      r, pos := DecodeAck(code, buf, start, end);
    } else {
      r, pos := DecodeLane(code, buf, start, end);
    }
  }

  lemma NothingParses(kind: FrameKind, code: vint)
    requires kind != PADDING && kind != PIPE_PING && !(kind == DATAGRAM && code != 0x31)
    ensures DecodeBody(kind, code, []) == Err(FrameEncodingError)
  {
    NothingToRead();
    assert ParseField(KVarint, []).None? && ParseField(KVarBytes, []).None?;
    assert ParseField(KFixed(LANE_KEY_BYTES), []).None? && ParseField(KByteBytes, []).None?;
    assert ParseField(KEntries, []).None?;
  }

  /** The outcome after a minimal type other than PADDING. */
  ghost function Typed(b: Bytes, code: vint, w: nat, enabled: Gates, limit: Option<int>): Result<(Frame, nat)>
    requires w <= |b|
  {
    match FrameByType(code)
    case None => Err(FrameEncodingError)
    case Some(Prohibited) => Err(FrameEncodingError)
    case Some(Active(kind)) =>
      if !Negotiated(kind, enabled) then Err(GateError(kind))
      else
        var (f, n) :- DecodeBody(kind, code, b[w..]);
        if WithinLimit(f, w + n, limit) then Ok((f, w + n)) else Err(ProtocolViolation)
  }

  /** The outcome by what the type is. */
  lemma ByType(b: Bytes, enabled: Gates, limit: Option<int>)
    ensures var spec := DecodeFrameSpec(b, enabled, limit);
            if DecV(b).None? then spec == Err(FrameEncodingError)
            else
              var (code, w) := DecV(b).value;
              && (w != VarintLen(code) ==> spec == Err(ProtocolViolation))
              && (w == VarintLen(code) && code == 0 ==>
                    var n := 1 + ZeroRun(b[1..]); spec == Ok((Padding(n), n)))
              && (w == VarintLen(code) && code != 0 ==> spec == Typed(b, code, w, enabled, limit))
  {
    hide DecV, DecodeBody, FrameByType, Negotiated, ZeroRun;
  }

  /** The checks that an empty DATAGRAM which ends before it starts must pass. */
  predicate EmptyDatagramPasses(start: nat, end: nat, enabled: Gates, limit: Option<int>) {
    Negotiated(DATAGRAM, enabled) && (limit.Some? ==> end - start <= limit.value)
  }

  /** A type of one byte. */
  lemma OneByte(b: Bytes)
    requires b != [] && b[0] < 0x40
    ensures DecV(b) == Some((b[0], 1))
  {
    assert [b[..1][0] % 64] + b[..1][1..] == [b[0]];
    assert FromBytes([b[0]][..0]) == 0;
  }

  /** A minimal type below 64 is its only byte. */
  lemma TypeByte(b: Bytes)
    requires DecV(b).Some? && DecV(b).value.1 == VarintLen(DecV(b).value.0)
    ensures b != [] && (DecV(b).value.0 < 0x40 <==> b[0] < 0x40)
    ensures b[0] < 0x40 ==> DecV(b).value.0 == b[0]
  {
    if b[0] < 0x40 {
      OneByte(b);
    }
  }

  lemma ZeroType(b: Bytes)
    requires DecV(b) == Some((0, 1))
    ensures b[0] == 0
  {
    DecodeIsEncode(b);
    assert EncV(0) == [0] && b[0] == b[..1][0];
  }

  /** decode_frame after the type has been read and was not PADDING. */
  method DecodeTyped(code: vint, buf: Bytes, start: nat, afterType: nat, end: nat, enabled: Gates, limit: Option<int>)
    returns (r: Result<Frame>, pos: nat)
    requires end <= |buf| && code != 0 && afterType == start + VarintLen(code)
    ensures r.Ok? && start < end ==> start < pos <= end && afterType <= end
    ensures r.Ok? && start < end ==>
              Typed(buf[start..end], code, afterType - start, enabled, limit) == Ok((r.value, pos - start))
    ensures r.Err? && afterType <= end ==>
              Typed(buf[start..end], code, afterType - start, enabled, limit) == Err(r.code)
    ensures end <= start ==> (r.Ok? <==> code == 0x30 && EmptyDatagramPasses(start, end, enabled, limit))
    ensures end <= start && r.Ok? ==> r.value == Datagram(Some(false), []) && pos == end
  {
    hide DecodeBody, FrameByType, Negotiated;
    pos := afterType;
    KindCodes(DATAGRAM, code);
    var meta := FrameByType(code);
    if meta.None? {
      return Err(FrameEncodingError), pos;
    }
    if meta.value.Prohibited? {
      return Err(FrameEncodingError), pos;
    }
    var kind := meta.value.kind;
    if !Negotiated(kind, enabled) {
      return Err(GateError(kind)), pos;
    }
    KindCodes(PADDING, code);
    KindCodes(kind, code);
    var f, p2 := DecodeBranch(kind, code, buf, start, pos, end);
    if pos > end && kind != PIPE_PING && !RestFromPastEnd(kind, code, pos, end) {
      NothingParses(kind, code);
    }
    if start < end && pos <= end {
      SliceOfSlice(buf, start, end, pos - start, end - start);
    }
    pos := p2;
    if f.Err? {
      return Err(f.code), pos;
    }
    if pos > end {
      return Err(FrameEncodingError), pos;
    }
    if f.value.Datagram? && limit.Some? && pos - start > limit.value {
      return Err(ProtocolViolation), pos;
    }
    return Ok(f.value), pos;
  }

  lemma {:induction false} RunLength(b: Bytes, n: nat)
    requires n <= |b| && (forall i :: 0 <= i < n ==> b[i] == 0) && (n < |b| ==> b[n] != 0)
    ensures ZeroRun(b) == n
  {
    if n == 0 {
    } else {
      RunLength(b[1..], n - 1);
    }
  }

  /** The PADDING branch: the run of zero bytes up to `end`. */
  method DecodePadding(buf: Bytes, start: nat, end: nat) returns (r: Result<Frame>, pos: nat)
    requires end <= |buf| && start < |buf| && buf[start] == 0
    ensures start < end ==> start < pos <= end && r == Ok(Padding(1 + ZeroRun(buf[start..end][1..])))
    ensures start < end ==> pos == start + 1 + ZeroRun(buf[start..end][1..])
    ensures end <= start ==> r == Ok(Padding(1)) && pos == start + 1
  {
    var n := 1;
    pos := start + 1;
    while pos < end && buf[pos] == 0x00
      invariant start < pos && (start < end ==> pos <= end) && (end <= start ==> pos == start + 1) && n == pos - start
      invariant forall i :: start < i < pos ==> buf[i] == 0
    {
      pos := pos + 1;
      n := n + 1;
    }
    if start < end {
      RunLength(buf[start..end][1..], pos - start - 1);
    }
    return Ok(Padding(n)), pos;
  }

  /** decode_frame on buf[pos:end]. On success it agrees with the specification on the slice;
      on failure the slice fails too, and with the same code unless the Type itself runs over
      `end` into more of the buffer. Nothing past `end` is ever part of a frame, except that from
      `end` on one zero byte is still taken, and the type of a DATAGRAM without Length. */
  method DecodeFrame(buf: Bytes, start: nat, end: nat, enabled: Gates, limit: Option<int>)
    returns (r: Result<Frame>, pos: nat)
    requires end <= |buf|
    ensures r.Ok? && start < end ==> start < pos <= end
    ensures r.Ok? && start < end ==>
              DecodeFrameSpec(buf[start..end], enabled, limit) == Ok((r.value, pos - start))
    ensures r.Err? && start < end ==> DecodeFrameSpec(buf[start..end], enabled, limit).Err?
    ensures r.Err? && start < end && (end == |buf| || DecV(buf[start..end]).Some?) ==>
              DecodeFrameSpec(buf[start..end], enabled, limit) == Err(r.code)
    ensures start >= |buf| ==> r == Err(FrameEncodingError)
    ensures end <= start < |buf| ==>
              (r.Ok? <==> buf[start] == 0 || (buf[start] == 0x30 && EmptyDatagramPasses(start, end, enabled, limit)))
    ensures end <= start && r.Ok? ==>
              if buf[start] == 0 then r.value == Padding(1) && pos == start + 1
              else r.value == Datagram(Some(false), []) && pos == end
  {
    hide DecV, DecodeFrameSpec, Typed, ZeroRun;
    pos := start;
    ghost var b := Slice(buf, start, end);
    var code', p1, width := DecodeVarint(buf, start, FrameEncodingError);
    if start < end {
      SliceOfSlice(buf, start, |buf|, 0, end - start);
      assert buf[start..|buf|] == buf[start..];
      DecodePrefix(buf[start..], end - start);
    }
    ByType(b, enabled, limit);
    if start < |buf| && buf[start] < 0x40 {
      OneByte(buf[start..]);
    }
    if code'.Err? {
      return Err(code'.code), pos;
    }
    var code := code'.value;
    pos := p1;
    DecodeIsEncode(buf[start..]);
    if width != VarintLen(code) {
      return Err(ProtocolViolation), pos;
    }
    if code == 0x00 {
      ZeroType(buf[start..]);
      r, pos := DecodePadding(buf, start, end);
      return;
    }
    TypeByte(buf[start..]);
    r, pos := DecodeTyped(code, buf, start, pos, end, enabled, limit);
  }

  ghost function AfterFrames(read: seq<Frame>, rest: Result<seq<Frame>>): Result<seq<Frame>> {
    if rest.Err? then rest else Ok(read + rest.value)
  }

  lemma NoFramesYet(all: Result<seq<Frame>>)
    ensures AfterFrames([], all) == all
  {
    if all.Ok? {
      assert [] + all.value == all.value;
    }
  }

  lemma FramesStep(read: seq<Frame>, f: Frame, rest: Result<seq<Frame>>)
    ensures rest.Ok? ==> AfterFrames(read, Ok([f] + rest.value)) == AfterFrames(read + [f], rest)
  {
    if rest.Ok? {
      assert read + ([f] + rest.value) == read + [f] + rest.value;
    }
  }

  /** decode_frames. */
  method DecodeFrames(payload: Bytes, enabled: Gates, limit: Option<int>) returns (r: Result<seq<Frame>>)
    ensures r == DecodeFramesSpec(payload, enabled, limit)
  {
    hide DecodeFrameSpec, DecV;
    var pos := 0;
    var frames: seq<Frame> := [];
    ghost var all := DecodeFramesSpec(payload, enabled, limit);
    assert payload[0..] == payload;
    NoFramesYet(all);
    while pos < |payload|
      invariant 0 <= pos <= |payload|
      invariant all == AfterFrames(frames, DecodeFramesSpec(payload[pos..], enabled, limit))
    {
      ghost var b := payload[pos..];
      assert payload[pos..|payload|] == b;
      var f, next := DecodeFrame(payload, pos, |payload|, enabled, limit);
      if f.Err? {
        return Err(f.code);
      }
      assert payload[next..] == b[next - pos..];
      FramesStep(frames, f.value, DecodeFramesSpec(payload[next..], enabled, limit));
      frames := frames + [f.value];
      pos := next;
    }
    assert payload[pos..] == [] && frames + [] == frames;
    return Ok(frames);
  }
}
