/** Records on a byte stream and messages of a message-framed carrier
    (tools/zmuxwire/frames.py lines 535-599). */
module Records {
  import opened Base
  import opened Varint
  import opened Frames
  import opened Canonical
  import opened Minimal
  import opened Normal
  import Encoder
  import Decoder
  import BlockDecoder

  // ---------------------------------------------------------------- encoding

  predicate RecordEncodable(fs: seq<Frame>) {
    AllEncodable(fs) && IsVarint(|WireAll(fs)|)
  }

  /** A Size and the frames. */
  function RecordWire(fs: seq<Frame>): Bytes
    requires RecordEncodable(fs)
  {
    EncV(|WireAll(fs)|) + WireAll(fs)
  }

  /** encode_record. */
  method EncodeRecord(frames: seq<Frame>) returns (r: Option<Bytes>)
    ensures r.Some? <==> RecordEncodable(frames)
    ensures r.Some? ==> r.value == RecordWire(frames)
  {
    hide EncV, Encodable, WireAll;
    var body :- Encoder.EncodeFrames(frames);
    var size :- EncodeVarint(|body|, None);
    return Some(size + body);
  }

  // ---------------------------------------------------------------- one record

  /** The record at the front of `b` and its length; None while it is incomplete. */
  function DecodeRecordSpec(b: Bytes, maxSize: int, enabled: Gates): (r: Result<Option<(seq<Frame>, nat)>>)
    ensures r.Ok? && r.value.Some? ==> 1 <= r.value.value.1 <= |b|
  {
    match DecV(b)
    case None => Ok(None)
    case Some((size, w)) =>
      if size == 0 || size > maxSize then Err(FrameEncodingError)
      else if |b| < w + size then Ok(None)
      else
        var frames :- DecodeFramesSpec(b[w..w + size], enabled, None);
        Ok(Some((frames, w + size)))
  }

  lemma Incomplete(b: Bytes)
    requires b != []
    ensures DecV(b).None? <==> |b| < WidthOf(b[0])
  {
  }

  /** decode_record at a position of the buffer. */
  method DecodeRecord(buf: Bytes, pos: nat, maxSize: int, enabled: Gates)
    returns (r: Result<Option<seq<Frame>>>, newPos: nat)
    requires pos <= |buf|
    ensures match DecodeRecordSpec(buf[pos..], maxSize, enabled) {
              case Err(code) => r == Err(code)
              case Ok(None) => r == Ok(None) && newPos == pos
              case Ok(Some((frames, n))) => r == Ok(Some(frames)) && newPos == pos + n
            }
  {
    hide DecV, DecodeFramesSpec;
    newPos := pos;
    ghost var b := buf[pos..];
    if pos >= |buf| {
      BlockDecoder.NothingToRead();
      return Ok(None), pos;
    }
    var width := WidthOf(buf[pos]);
    Incomplete(b);
    if pos + width > |buf| {
      return Ok(None), pos;
    }
    var size, bodyStart, w := DecodeVarint(buf, pos, FrameEncodingError);
    if size.value == 0 {
      return Err(FrameEncodingError), pos;
    }
    if size.value > maxSize {
      return Err(FrameEncodingError), pos;
    }
    if bodyStart + size.value > |buf| {
      return Ok(None), pos;
    }
    DropSlice(buf, pos, w, w + size.value);
    var frames := Decoder.DecodeFrames(buf[bodyStart..bodyStart + size.value], enabled, None);
    if frames.Err? {
      return Err(frames.code), pos;
    }
    return Ok(Some(frames.value)), bodyStart + size.value;
  }

  /** Size-prefixed bytes are found again behind their Size. */
  lemma SizePrefix(body: Bytes, tail: Bytes)
    requires IsVarint(|body|)
    ensures var size := EncV(|body|); var b := size + body + tail;
            && DecV(b) == Some((|body|, |size|))
            && b[|size|..|size| + |body|] == body
            && b[|size| + |body|..] == tail
  {
    hide DecV, EncV;
    AppendAssoc(EncV(|body|), body, tail);
    DecodeEncode(|body|, body + tail);
  }

  /** A record that was sent is read back in normal form and ends before what follows it;
      this holds exactly for records of an accepted size whose frames can be sent. */
  lemma RecordRoundTrip(fs: seq<Frame>, tail: Bytes, maxSize: int, enabled: Gates)
    requires RecordEncodable(fs)
    ensures DecodeRecordSpec(RecordWire(fs) + tail, maxSize, enabled) ==
              Ok(Some((NormalForm(fs), |RecordWire(fs)|))) <==>
              1 <= |WireAll(fs)| <= maxSize && Sendable(ExpandAll(fs), enabled, None)
  {
    hide EncV, DecV, Encodable, WireAll, DecodeFramesSpec, NormalForm, ExpandAll, Sendable;
    var body := WireAll(fs);
    SizePrefix(body, tail);
    DecodeInvertsEncode(fs, enabled, None);
  }

  // ---------------------------------------------------------------- a stream of records

  /** Where reading a stream stops: before an incomplete record, or at an error. */
  datatype Ending = Tail(rest: Bytes) | Failed(code: Code)

  datatype Run = Run(records: seq<seq<Frame>>, ending: Ending)

  /** Records read one after the other until no complete one is left. */
  function Drain(b: Bytes, maxSize: int, enabled: Gates): Run
    decreases |b|
  {
    match DecodeRecordSpec(b, maxSize, enabled)
    case Err(code) => Run([], Failed(code))
    case Ok(None) => Run([], Tail(b))
    case Ok(Some((frames, n))) =>
      var more := Drain(b[n..], maxSize, enabled);
      Run([frames] + more.records, more.ending)
  }

  /** What decode_stream makes of a run. */
  function Outcome(run: Run, requireComplete: bool): Result<seq<seq<Frame>>> {
    match run.ending
    case Failed(code) => Err(code)
    case Tail(rest) => if rest != [] && requireComplete then Err(FrameEncodingError) else Ok(run.records)
  }

  function After(read: seq<seq<Frame>>, rest: Run): Run {
    Run(read + rest.records, rest.ending)
  }

  lemma NoMore(maxSize: int, enabled: Gates)
    ensures Drain([], maxSize, enabled) == Run([], Tail([]))
  {
  }

  /** decode_stream. */
  method DecodeStream(buf: Bytes, maxSize: int, enabled: Gates, requireComplete: bool)
    returns (r: Result<seq<seq<Frame>>>)
    ensures r == Outcome(Drain(buf, maxSize, enabled), requireComplete)
  {
    hide DecodeRecordSpec;
    var pos := 0;
    var records: seq<seq<Frame>> := [];
    ghost var all := Drain(buf, maxSize, enabled);
    assert buf[0..] == buf && [] + all.records == all.records;
    while pos < |buf|
      invariant 0 <= pos <= |buf|
      invariant all == After(records, Drain(buf[pos..], maxSize, enabled))
      decreases |buf| - pos
    {
      ghost var b := buf[pos..];
      var frames, npos := DecodeRecord(buf, pos, maxSize, enabled);
      if frames.Err? {
        return Err(frames.code);
      }
      if frames.value.None? {
        assert records + [] == records;
        if requireComplete {
          return Err(FrameEncodingError);
        }
        return Ok(records);
      }
      DropDrop(buf, pos, npos - pos);
      ghost var more := Drain(buf[npos..], maxSize, enabled);
      assert records + ([frames.value.value] + more.records) == records + [frames.value.value] + more.records;
      records := records + [frames.value.value];
      pos := npos;
    }
    NoMore(maxSize, enabled);
    assert buf[pos..] == [] && records + [] == records;
    return Ok(records);
  }

  // ---------------------------------------------------------------- chunk independence

  /** A record or an error that shows on a prefix is there on every extension of it. */
  lemma RecordPersists(a: Bytes, b: Bytes, maxSize: int, enabled: Gates)
    ensures var r := DecodeRecordSpec(a, maxSize, enabled);
            r.Err? || r.value.Some? ==> DecodeRecordSpec(a + b, maxSize, enabled) == r
  {
    hide DecodeFramesSpec;
    DecodePrefix(a + b, |a|);
    assert (a + b)[..|a|] == a;
    if DecV(a).Some? {
      var (size, w) := DecV(a).value;
      if |a| >= w + size {
        assert (a + b)[w..w + size] == a[w..w + size];
      }
    }
  }

  /** What a reader that keeps the unread tail does with the next chunk. */
  function Continue(run: Run, chunk: Bytes, maxSize: int, enabled: Gates): Run {
    match run.ending
    case Failed(_) => run
    case Tail(rest) => After(run.records, Drain(rest + chunk, maxSize, enabled))
  }

  /** Reading a prefix, keeping the tail and going on gives the same records and the same end
      as reading everything at once. */
  lemma {:induction false} DrainSplit(a: Bytes, b: Bytes, maxSize: int, enabled: Gates)
    ensures Drain(a + b, maxSize, enabled) == Continue(Drain(a, maxSize, enabled), b, maxSize, enabled)
    decreases |a|
  {
    hide DecodeRecordSpec;
    var r := DecodeRecordSpec(a, maxSize, enabled);
    RecordPersists(a, b, maxSize, enabled);
    if r.Ok? {
      if r.value.Some? {
        var (frames, n) := r.value.value;
        assert (a + b)[n..] == a[n..] + b;
        DrainSplit(a[n..], b, maxSize, enabled);
        var inner := Drain(a[n..], maxSize, enabled);
        if inner.ending.Tail? {
          var more := Drain(inner.ending.rest + b, maxSize, enabled).records;
          assert [frames] + (inner.records + more) == [frames] + inner.records + more;
        }
      } else {
        var whole := Drain(a + b, maxSize, enabled);
        assert [] + whole.records == whole.records;
      }
    }
  }

  function Concat(chunks: seq<Bytes>): Bytes {
    if chunks == [] then [] else Concat(chunks[..|chunks| - 1]) + chunks[|chunks| - 1]
  }

  /** A reader fed chunk by chunk. */
  function Feed(chunks: seq<Bytes>, maxSize: int, enabled: Gates): Run {
    if chunks == [] then Run([], Tail([]))
    else Continue(Feed(chunks[..|chunks| - 1], maxSize, enabled), chunks[|chunks| - 1], maxSize, enabled)
  }

  /** However the byte stream is split into chunks, the reader sees the same. */
  lemma {:induction false} ChunkIndependence(chunks: seq<Bytes>, maxSize: int, enabled: Gates)
    ensures Feed(chunks, maxSize, enabled) == Drain(Concat(chunks), maxSize, enabled)
  {
    if chunks == [] {
      NoMore(maxSize, enabled);
    } else {
      ChunkIndependence(chunks[..|chunks| - 1], maxSize, enabled);
      DrainSplit(Concat(chunks[..|chunks| - 1]), chunks[|chunks| - 1], maxSize, enabled);
    }
  }

  // ---------------------------------------------------------------- whole streams

  predicate StreamEncodable(rs: seq<seq<Frame>>) {
    forall i :: 0 <= i < |rs| ==> RecordEncodable(rs[i])
  }

  function StreamWire(rs: seq<seq<Frame>>): Bytes
    requires StreamEncodable(rs)
  {
    if rs == [] then [] else RecordWire(rs[0]) + StreamWire(rs[1..])
  }

  function NormalForms(rs: seq<seq<Frame>>): seq<seq<Frame>> {
    if rs == [] then [] else [NormalForm(rs[0])] + NormalForms(rs[1..])
  }

  predicate RecordSendable(fs: seq<Frame>, maxSize: int, enabled: Gates) {
    RecordEncodable(fs) && 1 <= |WireAll(fs)| <= maxSize && Sendable(ExpandAll(fs), enabled, None)
  }

  predicate AllSendable(rs: seq<seq<Frame>>, maxSize: int, enabled: Gates) {
    forall i :: 0 <= i < |rs| ==> RecordSendable(rs[i], maxSize, enabled)
  }

  lemma AllSendableStep(rs: seq<seq<Frame>>, maxSize: int, enabled: Gates)
    requires rs != []
    ensures AllSendable(rs, maxSize, enabled) <==>
              RecordSendable(rs[0], maxSize, enabled) && AllSendable(rs[1..], maxSize, enabled)
  {
    hide RecordSendable;
    if RecordSendable(rs[0], maxSize, enabled) && AllSendable(rs[1..], maxSize, enabled) {
      assert rs == [rs[0]] + rs[1..];
    }
  }

  /** An encoded record is never incomplete: it is an error, or a record of its own length. */
  lemma EncodedIsComplete(fs: seq<Frame>, tail: Bytes, maxSize: int, enabled: Gates)
    requires RecordEncodable(fs)
    ensures var r := DecodeRecordSpec(RecordWire(fs) + tail, maxSize, enabled);
            r.Err? || (r.value.Some? && r.value.value.1 == |RecordWire(fs)|)
  {
    hide EncV, DecV, Encodable, WireAll, DecodeFramesSpec;
    SizePrefix(WireAll(fs), tail);
  }

  lemma SameAfter(a: seq<Frame>, r: Run, b: seq<Frame>, q: Run)
    ensures After([a], r) == After([b], q) <==> a == b && r == q
  {
    assert ([a] + r.records)[0] == a && ([a] + r.records)[1..] == r.records;
    assert ([b] + q.records)[0] == b && ([b] + q.records)[1..] == q.records;
  }

  /** What a stream starts with, when its first record is not incomplete. */
  lemma DrainFirst(head: Bytes, rest: Bytes, fs: seq<Frame>, more: Run, maxSize: int, enabled: Gates)
    requires var r := DecodeRecordSpec(head + rest, maxSize, enabled);
             r.Err? || (r.value.Some? && r.value.value.1 == |head|)
    ensures Drain(head + rest, maxSize, enabled) == After([fs], more) <==>
              DecodeRecordSpec(head + rest, maxSize, enabled) == Ok(Some((fs, |head|)))
              && Drain(rest, maxSize, enabled) == more
  {
    hide DecodeRecordSpec;
    AppendDrop(head, rest);
    var r := DecodeRecordSpec(head + rest, maxSize, enabled);
    if r.Ok? {
      SameAfter(r.value.value.0, Drain(rest, maxSize, enabled), fs, more);
    } else {
      assert Drain(head + rest, maxSize, enabled).records == [] != After([fs], more).records;
    }
  }

  lemma NoneToSend(maxSize: int, enabled: Gates)
    ensures AllSendable([], maxSize, enabled)
  {
  }

  lemma FirstSendable(fs: seq<Frame>, tail: Bytes, maxSize: int, enabled: Gates)
    requires RecordEncodable(fs)
    ensures DecodeRecordSpec(RecordWire(fs) + tail, maxSize, enabled) ==
              Ok(Some((NormalForm(fs), |RecordWire(fs)|))) <==>
              RecordSendable(fs, maxSize, enabled)
  {
    hide DecodeRecordSpec, RecordWire, NormalForm, Sendable, ExpandAll, WireAll;
    RecordRoundTrip(fs, tail, maxSize, enabled);
  }

  lemma AfterFirst(first: seq<Frame>, read: seq<seq<Frame>>, rest: Run)
    ensures After([first] + read, rest) == After([first], After(read, rest))
  {
    assert [first] + (read + rest.records) == [first] + read + rest.records;
  }

  /** A stream of records is read back record by record, whatever follows it, exactly when each
      of them is sendable. */
  lemma {:induction false} StreamRoundTrip(rs: seq<seq<Frame>>, tail: Bytes, maxSize: int, enabled: Gates)
    requires StreamEncodable(rs)
    ensures Drain(StreamWire(rs) + tail, maxSize, enabled) == After(NormalForms(rs), Drain(tail, maxSize, enabled)) <==>
              AllSendable(rs, maxSize, enabled)
  {
    hide DecodeRecordSpec, RecordWire, NormalForm, RecordSendable, RecordEncodable, AllSendable;
    if rs == [] {
      var rest := Drain(tail, maxSize, enabled);
      assert StreamWire(rs) + tail == tail && [] + rest.records == rest.records;
      NoneToSend(maxSize, enabled);
    } else {
      var head, more := RecordWire(rs[0]), StreamWire(rs[1..]);
      AppendAssoc(head, more, tail);
      EncodedIsComplete(rs[0], more + tail, maxSize, enabled);
      FirstSendable(rs[0], more + tail, maxSize, enabled);
      StreamRoundTrip(rs[1..], tail, maxSize, enabled);
      AllSendableStep(rs, maxSize, enabled);
      var rest := After(NormalForms(rs[1..]), Drain(tail, maxSize, enabled));
      AfterFirst(NormalForm(rs[0]), NormalForms(rs[1..]), Drain(tail, maxSize, enabled));
      DrainFirst(head, more + tail, NormalForm(rs[0]), rest, maxSize, enabled);
    }
  }

  /** Reading encoded records fails or reads all their bytes. */
  lemma {:induction false} EncodedEnds(rs: seq<seq<Frame>>, maxSize: int, enabled: Gates)
    requires StreamEncodable(rs)
    ensures Drain(StreamWire(rs), maxSize, enabled).ending == Tail([]) ||
            Drain(StreamWire(rs), maxSize, enabled).ending.Failed?
  {
    hide DecodeRecordSpec, RecordWire, RecordEncodable;
    if rs == [] {
      NoMore(maxSize, enabled);
    } else {
      EncodedIsComplete(rs[0], StreamWire(rs[1..]), maxSize, enabled);
      AppendDrop(RecordWire(rs[0]), StreamWire(rs[1..]));
      EncodedEnds(rs[1..], maxSize, enabled);
    }
  }

  /** decode_stream inverts a sequence of encoded records exactly when each is sendable. */
  lemma DecodeStreamInverts(rs: seq<seq<Frame>>, maxSize: int, enabled: Gates, requireComplete: bool)
    requires StreamEncodable(rs)
    ensures Outcome(Drain(StreamWire(rs), maxSize, enabled), requireComplete) == Ok(NormalForms(rs)) <==>
              AllSendable(rs, maxSize, enabled)
  {
    hide AllSendable, StreamWire, Drain, StreamEncodable;
    StreamRoundTrip(rs, [], maxSize, enabled);
    NoMore(maxSize, enabled);
    EncodedEnds(rs, maxSize, enabled);
    assert StreamWire(rs) + [] == StreamWire(rs) && NormalForms(rs) + [] == NormalForms(rs);
  }

  // ---------------------------------------------------------------- canonical records

  /** The Size and every varint of the frames of the record at the front are minimal. */
  predicate MinimalRecord(b: Bytes) {
    DecV(b).Some? && |b| >= DecV(b).value.1 + DecV(b).value.0 ==>
      var (size, w) := DecV(b).value; MinimalVarint(b) && MinimalFrames(b[w..w + size])
  }

  lemma DecodedTakesBytes(body: Bytes, enabled: Gates)
    requires DecodeFrameSpec(body, enabled, None).Ok?
    ensures var f := DecodeFrameSpec(body, enabled, None).value.0; Encodable(f) && Wire(f) != []
  {
    hide DecodeFrameSpec, EncV, FieldsOf, TypeCode;
    FrameShrinks(body, enabled, None);
  }

  lemma NoEmptyRecord(fs: seq<Frame>, body: Bytes, enabled: Gates)
    requires body != [] && DecodeFramesSpec(body, enabled, None) == Ok(fs) && AllEncodable(fs)
    ensures WireAll(fs) != []
  {
    hide DecodeFrameSpec, FrameWellFormed, Wire, Encodable, TypeCode, EncV;
    FrameShrinks(body, enabled, None);
    DecodedTakesBytes(body, enabled);
  }

  /** A decoded record encodes again, to no more bytes, which decode to the same frames; they are
      the bytes it was read from exactly when those were minimal. */
  lemma RecordCanonical(b: Bytes, maxSize: int, enabled: Gates)
    requires DecodeRecordSpec(b, maxSize, enabled).Ok? && DecodeRecordSpec(b, maxSize, enabled).value.Some?
    ensures var (fs, n) := DecodeRecordSpec(b, maxSize, enabled).value.value;
            && RecordEncodable(fs) && Shrinks(RecordWire(fs), b[..n]) && RecordWire(fs) != []
            && (RecordWire(fs) == b[..n] <==> MinimalRecord(b))
            && forall tail ::
                 DecodeRecordSpec(RecordWire(fs) + tail, maxSize, enabled) == Ok(Some((fs, |RecordWire(fs)|)))
  {
    hide DecV, EncV, DecodeFramesSpec, MinimalFrames, MinimalVarint, Returnable;
    var (size, w) := DecV(b).value;
    var body := b[w..w + size];
    var (fs, n) := DecodeRecordSpec(b, maxSize, enabled).value.value;
    IdenticalWhenMinimal(body, enabled, None);
    ListShrinks(body, enabled, None);
    ListRoundTrip(fs, enabled, None);
    VarintWidth(b);
    LengthWidth(|WireAll(fs)|, size);
    DecodeIsEncode(b);
    assert b[..n] == b[..w] + body;
    assert WireAll(fs) != [] by { NoEmptyRecord(fs, body, enabled); }
    if |WireAll(fs)| == |body| {
      ShrinksConcat(EncV(size), b[..w], WireAll(fs), body);
    }
    forall tail ensures DecodeRecordSpec(RecordWire(fs) + tail, maxSize, enabled) == Ok(Some((fs, |RecordWire(fs)|))) {
      SizePrefix(WireAll(fs), tail);
    }
  }

  /** How many bytes of a stream are read as records. */
  function Consumed(b: Bytes, maxSize: int, enabled: Gates): (n: nat)
    ensures n <= |b|
    decreases |b|
  {
    match DecodeRecordSpec(b, maxSize, enabled)
    case Ok(Some((_, n))) => n + Consumed(b[n..], maxSize, enabled)
    case _ => 0
  }

  /** Every record that is read from the stream is minimal. */
  predicate MinimalStream(b: Bytes, maxSize: int, enabled: Gates)
    decreases |b|
  {
    match DecodeRecordSpec(b, maxSize, enabled)
    case Ok(Some((_, n))) => MinimalRecord(b) && MinimalStream(b[n..], maxSize, enabled)
    case _ => true
  }

  /** The records of a stream encode again, to bytes which are read as the same records: the bytes
      they were read from exactly when those were minimal, and strictly fewer otherwise. */
  lemma {:induction false} StreamCanonical(b: Bytes, maxSize: int, enabled: Gates)
    ensures var rs := Drain(b, maxSize, enabled).records; var n := Consumed(b, maxSize, enabled);
            && StreamEncodable(rs) && Shrinks(StreamWire(rs), b[..n])
            && (StreamWire(rs) == b[..n] <==> MinimalStream(b, maxSize, enabled))
            && (|StreamWire(rs)| < n <==> !MinimalStream(b, maxSize, enabled))
            && Drain(StreamWire(rs), maxSize, enabled) == Run(rs, Tail([]))
    decreases |b|
  {
    hide DecodeRecordSpec, RecordWire, RecordEncodable, MinimalRecord;
    var r := DecodeRecordSpec(b, maxSize, enabled);
    if r.Ok? && r.value.Some? {
      var (fs, n) := r.value.value;
      var more := Drain(b[n..], maxSize, enabled).records;
      RecordCanonical(b, maxSize, enabled);
      StreamCanonical(b[n..], maxSize, enabled);
      ShrinksConcat(RecordWire(fs), b[..n], StreamWire(more), b[n..][..Consumed(b[n..], maxSize, enabled)]);
      Cut(b, n, Consumed(b[n..], maxSize, enabled));
      assert ([fs] + more)[1..] == more;
      AppendDrop(RecordWire(fs), StreamWire(more));
    } else {
      NoMore(maxSize, enabled);
    }
  }

  // ---------------------------------------------------------------- messages

  /** decode_message: a message is a record's frames without a Size, and may be empty. */
  function DecodeMessage(msg: Bytes, maxSize: int, enabled: Gates): Result<seq<Frame>> {
    if |msg| == 0 then Ok([])
    else if |msg| > maxSize then Err(FrameEncodingError)
    else DecodeFramesSpec(msg, enabled, None)
  }

  /** message_position: the bytes a message counts for, those of its byte-stream form. */
  function MessagePosition(msg: Bytes): nat
    requires IsVarint(|msg|)
  {
    |msg| + |EncV(|msg|)|
  }

  predicate Framable(msgs: seq<Bytes>) {
    forall i :: 0 <= i < |msgs| ==> IsVarint(|msgs[i]|)
  }

  /** The byte-stream form of messages: each behind its Size. */
  function Framed(msgs: seq<Bytes>): Bytes
    requires Framable(msgs)
  {
    if msgs == [] then [] else EncV(|msgs[0]|) + msgs[0] + Framed(msgs[1..])
  }

  function PositionAfter(msgs: seq<Bytes>): nat
    requires Framable(msgs)
  {
    if msgs == [] then 0 else MessagePosition(msgs[0]) + PositionAfter(msgs[1..])
  }

  /** The messages decoded in order, up to the first error. */
  function DecodeMessages(msgs: seq<Bytes>, maxSize: int, enabled: Gates): Run {
    if msgs == [] then Run([], Tail([]))
    else
      match DecodeMessage(msgs[0], maxSize, enabled)
      case Err(code) => Run([], Failed(code))
      case Ok(frames) => After([frames], DecodeMessages(msgs[1..], maxSize, enabled))
  }

  /** A non-empty message decodes as the record it makes, with the same error code. */
  lemma MessageIsRecord(msg: Bytes, tail: Bytes, maxSize: int, enabled: Gates)
    requires msg != [] && IsVarint(|msg|)
    ensures DecodeRecordSpec(EncV(|msg|) + msg + tail, maxSize, enabled) ==
              match DecodeMessage(msg, maxSize, enabled)
              case Err(code) => Err(code)
              case Ok(frames) => Ok(Some((frames, MessagePosition(msg))))
  {
    hide EncV, DecV, DecodeFramesSpec;
    SizePrefix(msg, tail);
  }

  /** Both framings carry the same: the Size-prefixed stream of non-empty messages decodes to
      what the messages decode to, records, order and first error alike. */
  lemma {:induction false} FramingEquivalence(msgs: seq<Bytes>, maxSize: int, enabled: Gates)
    requires Framable(msgs) && [] !in msgs
    ensures Drain(Framed(msgs), maxSize, enabled) == DecodeMessages(msgs, maxSize, enabled)
  {
    hide EncV, DecodeRecordSpec, DecodeMessage;
    if msgs == [] {
      NoMore(maxSize, enabled);
    } else {
      var rest := Framed(msgs[1..]);
      assert msgs[0] in msgs;
      MessageIsRecord(msgs[0], rest, maxSize, enabled);
      SizePrefix(msgs[0], rest);
      FramingEquivalence(msgs[1..], maxSize, enabled);
    }
  }

  /** An empty message is the one that has no record: it decodes to no frames, and its Size is
      refused on a byte stream whatever follows. */
  lemma EmptyMessage(tail: Bytes, maxSize: int, enabled: Gates)
    ensures DecodeMessage([], maxSize, enabled) == Ok([])
    ensures DecodeRecordSpec(EncV(0) + [] + tail, maxSize, enabled) == Err(FrameEncodingError)
  {
    hide EncV, DecV, DecodeFramesSpec;
    SizePrefix([], tail);
  }

  /** The i-th record of the byte stream starts and ends at the positions of the messages. */
  lemma {:induction false} RecordPositions(msgs: seq<Bytes>, i: nat, maxSize: int, enabled: Gates)
    requires Framable(msgs) && i < |msgs| && msgs[i] != []
    ensures PositionAfter(msgs[..i]) + MessagePosition(msgs[i]) <= |Framed(msgs)|
    ensures DecodeRecordSpec(Framed(msgs)[PositionAfter(msgs[..i])..], maxSize, enabled) ==
              match DecodeMessage(msgs[i], maxSize, enabled)
              case Err(code) => Err(code)
              case Ok(frames) => Ok(Some((frames, MessagePosition(msgs[i]))))
  {
    hide EncV, DecodeRecordSpec, DecodeMessage;
    var head := EncV(|msgs[0]|) + msgs[0];
    var rest := Framed(msgs[1..]);
    if i == 0 {
      MessageIsRecord(msgs[0], rest, maxSize, enabled);
      assert PositionAfter(msgs[..0]) == 0 && Framed(msgs)[0..] == Framed(msgs);
    } else {
      assert msgs[1..][..i - 1] == msgs[..i][1..];
      RecordPositions(msgs[1..], i - 1, maxSize, enabled);
      AppendDrop(head, rest);
      DropDrop(Framed(msgs), |head|, PositionAfter(msgs[1..][..i - 1]));
    }
  }
}
