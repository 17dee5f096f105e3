/** Reading the fields of a frame body at a cursor, never past `end`
    (tools/zmuxwire/frames.py lines 329-331 and 366-374). */
module BodyReader {
  import opened Base
  import opened Varint
  import opened Registry
  import opened Fields
  import opened Frames
  import opened BlockDecoder

  // ---------------------------------------------------------------- reading fields

  /** The closure v() of decode_frame: one varint before `end`. */
  method ReadVarint(buf: Bytes, start: nat, end: nat) returns (r: Result<vint>, pos: nat)
    requires end <= |buf|
    ensures r.Err? ==> r.code == FrameEncodingError && DecV(Slice(buf, start, end)).None?
    ensures r.Ok? ==> start < pos <= end && pos <= start + 8
    ensures r.Ok? ==> DecV(Slice(buf, start, end)) == Some((r.value, pos - start))
    ensures r.Ok? ==> Slice(buf, pos, end) == Slice(buf, start, end)[pos - start..]
  {
    hide DecV;
    pos := start;
    if start >= end {
      NothingToRead();
      return Err(FrameEncodingError), pos;
    }
    var val, pos2, w := DecodeVarint(buf, start, FrameEncodingError);
    assert Slice(buf, start, end) == buf[start..][..end - start];
    DecodePrefix(buf[start..], end - start);
    if val.Err? {
      return Err(val.code), pos;
    }
    if pos2 > end {
      return Err(FrameEncodingError), pos;
    }
    return Ok(val.value), pos2;
  }

  /** v() as a step of parsing: it moves over one field, whatever shape comes after it. */
  method ReadV(buf: Bytes, start: nat, end: nat, ghost shape: Shape)
    returns (r: Result<vint>, pos: nat, ghost rest: Shape)
    requires end <= |buf| && shape.Then? && shape.head == KVarint
    ensures rest == shape.tail
    ensures r.Err? ==> r.code == FrameEncodingError && Parse(shape, Slice(buf, start, end)).None?
    ensures r.Ok? ==> start < pos <= end && pos <= start + 8
    ensures r.Ok? ==> DecV(Slice(buf, start, end)) == Some((r.value, pos - start))
    ensures r.Ok? ==> Parse(shape, Slice(buf, start, end)) ==
                      Prepend(FVarint(r.value), pos - start, Parse(rest, Slice(buf, pos, end)))
  {
    hide DecV, Slice;
    rest := shape.tail;
    r, pos := ReadVarint(buf, start, end);
  }

  /** _need and the slice after it: n bytes before `end`. */
  method ReadBytes(buf: Bytes, start: nat, end: nat, n: nat) returns (r: Result<Bytes>, pos: nat)
    requires end <= |buf|
    ensures r.Ok? <==> start + n <= end
    ensures r.Err? ==> r.code == FrameEncodingError && pos == start
    ensures r.Ok? ==> pos == start + n && r.value == buf[start..pos]
  {
    pos := start;
    if pos + n > end {
      return Err(FrameEncodingError), pos;
    }
    r := Ok(buf[pos..pos + n]);
    pos := pos + n;
  }

  /** A varint length, that many bytes, and then the end of the body. */
  method ReadVarBytes(buf: Bytes, start: nat, end: nat) returns (r: Result<Bytes>, pos: nat)
    requires end <= |buf|
    ensures r.Err? ==> r.code == FrameEncodingError && Parse(DataShape(true), Slice(buf, start, end)).None?
    ensures r.Ok? ==> start < pos <= end
    ensures r.Ok? ==> Parse(DataShape(true), Slice(buf, start, end)) ==
                      Some((FCons(FVarBytes(r.value), FNil), pos - start))
  {
    hide DecV;
    var len;
    ghost var rest;
    len, pos, rest :- ReadV(buf, start, end, S1());
    ghost var b := Slice(buf, start, end);
    ghost var w := pos - start;
    r, pos := ReadBytes(buf, pos, end, len);
    if r.Ok? {
      assert r.value == b[w..w + len];
    }
  }

  /** The rest of the slice, for a frame without a Length. From past `end` that is nothing, and
      the cursor falls back to `end`. */
  method ReadRest(buf: Bytes, start: nat, end: nat) returns (data: Bytes, pos: nat)
    requires end <= |buf|
    ensures pos == end && data == Slice(buf, start, end)
    ensures start > end ==> data == []
    ensures start <= end ==>
              Parse(DataShape(false), Slice(buf, start, end)) == Some((FCons(FRest(data), FNil), pos - start))
  {
    var ln := end - start;
    data, pos := Slice(buf, start, start + ln), start + ln;
  }

  // ---------------------------------------------------------------- frame bodies

  ghost predicate Decodes(r: Result<Frame>, pos: nat, kind: FrameKind, code: vint, buf: Bytes, start: nat, end: nat)
    requires end <= |buf|
  {
    var spec := DecodeBody(kind, code, Slice(buf, start, end));
    if r.Ok? then pos >= start && spec == Ok((r.value, pos - start)) else spec == Err(r.code)
  }

  /** A body whose fields do not parse fails, in every branch with the same code. */
  lemma Unparsed(kind: FrameKind, code: vint)
    ensures forall b: Bytes :: Parse(ShapeOf(kind, code), b).None? ==>
              DecodeBody(kind, code, b) == Err(FrameEncodingError)
  {
  }

  /** A body whose fields parse is what they build. */
  lemma Parsed(kind: FrameKind, code: vint, b: Bytes, fs: FieldList, n: nat)
    requires Parse(ShapeOf(kind, code), b) == Some((fs, n))
    ensures DecodeBody(kind, code, b) ==
              if Build(kind, code, fs).Ok? then Ok((Build(kind, code, fs).value, n))
              else Err(Build(kind, code, fs).code)
  {
  }

  // v(), v(), ... up to the end of the body.

  method ReadV1(buf: Bytes, start: nat, end: nat) returns (r: Result<vint>, pos: nat)
    requires end <= |buf|
    ensures r.Err? ==> r.code == FrameEncodingError && Parse(S1(), Slice(buf, start, end)).None?
    ensures r.Ok? ==> start < pos <= end && Parse(S1(), Slice(buf, start, end)) == Some((V1(r.value), pos - start))
  {
    hide Parse, Slice, DecV;
    ghost var rest;
    r, pos, rest := ReadV(buf, start, end, S1());
    EndParse(Slice(buf, pos, end));
  }

  method ReadV2(buf: Bytes, start: nat, end: nat) returns (r: Result<(vint, vint)>, pos: nat)
    requires end <= |buf|
    ensures r.Err? ==> r.code == FrameEncodingError && Parse(S2(), Slice(buf, start, end)).None?
    ensures r.Ok? ==> start < pos <= end && Parse(S2(), Slice(buf, start, end)) ==
                      Some((V2(r.value.0, r.value.1), pos - start))
  {
    hide Parse, Slice, DecV;
    var a, b;
    ghost var rest;
    a, pos, rest :- ReadV(buf, start, end, S2());
    b, pos :- ReadV1(buf, pos, end);
    return Ok((a, b)), pos;
  }

  method ReadV3(buf: Bytes, start: nat, end: nat) returns (r: Result<(vint, vint, vint)>, pos: nat)
    requires end <= |buf|
    ensures r.Err? ==> r.code == FrameEncodingError && Parse(S3(), Slice(buf, start, end)).None?
    ensures r.Ok? ==> start < pos <= end && Parse(S3(), Slice(buf, start, end)) ==
                      Some((V3(r.value.0, r.value.1, r.value.2), pos - start))
  {
    hide Parse, Slice, DecV;
    var a, bc;
    ghost var rest;
    a, pos, rest :- ReadV(buf, start, end, S3());
    bc, pos :- ReadV2(buf, pos, end);
    return Ok((a, bc.0, bc.1)), pos;
  }

  method ReadV4(buf: Bytes, start: nat, end: nat) returns (r: Result<(vint, vint, vint, vint)>, pos: nat)
    requires end <= |buf|
    ensures r.Err? ==> r.code == FrameEncodingError && Parse(S4(), Slice(buf, start, end)).None?
    ensures r.Ok? ==> start < pos <= end && Parse(S4(), Slice(buf, start, end)) ==
                      Some((V4(r.value.0, r.value.1, r.value.2, r.value.3), pos - start))
  {
    hide Parse, Slice, DecV;
    var a, bcd;
    ghost var rest;
    a, pos, rest :- ReadV(buf, start, end, S4());
    bcd, pos :- ReadV3(buf, pos, end);
    return Ok((a, bcd.0, bcd.1, bcd.2)), pos;
  }

  /** One byte before `end`. */
  method ReadByte(buf: Bytes, start: nat, end: nat, ghost shape: Shape)
    returns (r: Result<byte>, pos: nat, ghost rest: Shape)
    requires end <= |buf| && shape.Then? && shape.head == KByte
    ensures rest == shape.tail
    ensures r.Err? ==> r.code == FrameEncodingError && Parse(shape, Slice(buf, start, end)).None?
    ensures r.Ok? ==> start < pos <= end && Parse(shape, Slice(buf, start, end)) ==
                      Prepend(FByte(r.value), pos - start, Parse(rest, Slice(buf, pos, end)))
    ensures r.Ok? ==> pos == start + 1
  {
    rest := shape.tail;
    var b;
    b, pos :- ReadBytes(buf, start, end, 1);
    assert Slice(buf, pos, end) == Slice(buf, start, end)[1..];
    return Ok(b[0]), pos, rest;
  }

  /** n bytes before `end`. */
  method ReadFixed(buf: Bytes, start: nat, end: nat, n: nat, ghost shape: Shape)
    returns (r: Result<Bytes>, pos: nat, ghost rest: Shape)
    requires end <= |buf| && shape.Then? && shape.head == KFixed(n) && n > 0
    ensures rest == shape.tail
    ensures r.Ok? ==> pos == start + n
    ensures r.Err? ==> r.code == FrameEncodingError && Parse(shape, Slice(buf, start, end)).None?
    ensures r.Ok? ==> start < pos <= end && Parse(shape, Slice(buf, start, end)) ==
                      Prepend(FFixed(r.value), pos - start, Parse(rest, Slice(buf, pos, end)))
  {
    rest := shape.tail;
    r, pos := ReadBytes(buf, start, end, n);
    if r.Ok? {
      assert r.value == Slice(buf, start, end)[..n];
      assert Slice(buf, pos, end) == Slice(buf, start, end)[n..];
    }
  }
}
