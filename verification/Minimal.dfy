/** When encoding decoded frames again gives the very bytes: exactly when every varint in them was
    written in the fewest bytes (tools/zmuxwire/frames.py lines 4 and 334-532). */
module Minimal {
  import opened Base
  import opened Varint
  import opened Registry
  import opened Fields
  import opened TransportParameters
  import opened Frames
  import opened Canonical

  // ---------------------------------------------------------------- fields

  /** The varint at the front takes as few bytes as its value allows. */
  predicate MinimalVarint(b: Bytes) {
    DecV(b).Some? ==> DecV(b).value.1 == VarintLen(DecV(b).value.0)
  }

  predicate MinimalEntry(b: Bytes)
    requires ParseEntry(b).Some?
  {
    var n0 := DecV(b).value.1;
    var n1 := DecV(b[n0..]).value.1;
    var n2 := DecV(b[n0 + n1..]).value.1;
    MinimalVarint(b) && MinimalVarint(b[n0..]) && MinimalVarint(b[n0 + n1..]) && MinimalVarint(b[n0 + n1 + n2..])
  }

  predicate MinimalEntries(n: nat, b: Bytes)
    requires ParseEntries(n, b).Some?
  {
    n > 0 ==> MinimalEntry(b) && MinimalEntries(n - 1, b[ParseEntry(b).value.1..])
  }

  /** Every varint that reading this field takes is minimal: its value, its length or its count,
      and those of its entries. */
  predicate MinimalField(k: FieldKind, b: Bytes)
    requires ParseField(k, b).Some?
  {
    match k
    case KVarint => MinimalVarint(b)
    case KVarBytes => MinimalVarint(b)
    case KEntries => MinimalVarint(b) && MinimalEntries(DecV(b).value.0, b[DecV(b).value.1..])
    case _ => true
  }

  predicate MinimalFields(s: Shape, b: Bytes)
    requires Parse(s, b).Some?
    decreases s
  {
    s.Then? ==> MinimalField(s.head, b) && MinimalFields(s.tail, b[ParseField(s.head, b).value.1..])
  }

  lemma VarintWidth(b: Bytes)
    requires DecV(b).Some?
    ensures VarintLen(DecV(b).value.0) <= DecV(b).value.1
    ensures MinimalVarint(b) <==> VarintLen(DecV(b).value.0) == DecV(b).value.1
  {
    hide DecV, EncodeWidth, EncV;
    DecodeIsEncode(b);
  }

  lemma EntryWidth(b: Bytes)
    requires ParseEntry(b).Some?
    ensures var (e, n) := ParseEntry(b).value;
            |PrintEntry(e)| <= n && (|PrintEntry(e)| == n <==> MinimalEntry(b))
  {
    hide DecV, EncV, MinimalVarint;
    var n0 := DecV(b).value.1;
    var n1 := DecV(b[n0..]).value.1;
    var n2 := DecV(b[n0 + n1..]).value.1;
    VarintWidth(b);
    VarintWidth(b[n0..]);
    VarintWidth(b[n0 + n1..]);
    VarintWidth(b[n0 + n1 + n2..]);
  }

  lemma {:induction false} EntriesWidth(n: nat, b: Bytes)
    requires ParseEntries(n, b).Some?
    ensures var (es, m) := ParseEntries(n, b).value;
            |PrintEntries(es)| <= m && (|PrintEntries(es)| == m <==> MinimalEntries(n, b))
  {
    hide ParseEntry, PrintEntry, MinimalEntry;
    if n == 0 {
    } else {
      var (e, k) := ParseEntry(b).value;
      var es := ParseEntries(n - 1, b[k..]).value.0;
      EntryWidth(b);
      EntriesWidth(n - 1, b[k..]);
      assert ([e] + es)[1..] == es;
    }
  }

  lemma FieldWidth(k: FieldKind, b: Bytes)
    requires ParseField(k, b).Some?
    ensures var (f, n) := ParseField(k, b).value;
            Printable(f) && |PrintField(f)| <= n && (|PrintField(f)| == n <==> MinimalField(k, b))
  {
    hide DecV, EncV, ParseEntries, PrintEntries, MinimalVarint, MinimalEntries;
    FieldShrinks(k, b);
    match k
    case KVarint => VarintWidth(b);
    case KVarBytes => VarintWidth(b);
    case KEntries =>
      VarintWidth(b);
      EntriesWidth(DecV(b).value.0, b[DecV(b).value.1..]);
    case _ =>
  }

  lemma {:induction false} FieldsWidth(s: Shape, b: Bytes)
    requires Parse(s, b).Some?
    ensures var (fs, n) := Parse(s, b).value;
            AllPrintable(fs) && |Print(fs)| <= n && (|Print(fs)| == n <==> MinimalFields(s, b))
    decreases s
  {
    hide ParseField, PrintField, Printable, MinimalField;
    if s.Then? {
      FieldWidth(s.head, b);
      FieldsWidth(s.tail, b[ParseField(s.head, b).value.1..]);
    }
  }

  // ---------------------------------------------------------------- transport parameters

  /** The varint that opens a value of this parameter, if its format has one, is minimal. */
  predicate MinimalValue(num: vint, raw: Bytes) {
    TpById(num).Some? && TpFormatOf(TpById(num).value) in {VarintFormat, RoleFormat, LanesFormat} ==> MinimalVarint(raw)
  }

  /** Every id, length and value varint of a block is minimal. */
  predicate MinimalBlock(b: Bytes)
    requires TpEntries(b).Some?
    decreases |b|
  {
    b != [] ==>
      var (num, n) := DecV(b).value;
      var (len, m) := DecV(b[n..]).value;
      && MinimalVarint(b) && MinimalVarint(b[n..]) && MinimalValue(num, b[n + m..n + m + len])
      && MinimalBlock(b[n + m + len..])
  }

  lemma RoleWidth(raw: Bytes)
    requires DecodeRole(raw).Some?
    ensures var role := DecodeRole(raw).value;
            && (role.Auto? ==> role.nonce >= 0) && |RoleBytes(role)| <= |raw|
            && (|RoleBytes(role)| == |raw| <==> MinimalVarint(raw))
  {
    hide DecV, EncV, ToBytes, FromBytes, MinimalVarint;
    VarintWidth(raw);
  }

  lemma ValueWidth(num: vint, raw: Bytes)
    requires DecodeTpValue(num, raw).Some? && !IsProhibitedTp(num) && IsVarint(|raw|)
    ensures var p := DecodeTpValue(num, raw).value;
            ParamEncodable(p) && |ParamValue(p)| <= |raw| && (|ParamValue(p)| == |raw| <==> MinimalValue(num, raw))
  {
    hide DecV, EncV, DecodeRole, RoleBytes, MinimalVarint, TpById, IsProhibitedTp;
    ValueShrinks(num, raw);
    var p := DecodeTpValue(num, raw).value;
    if p.Known? {
      match TpFormatOf(p.name)
      case VarintFormat => VarintWidth(raw);
      case RoleFormat => RoleWidth(raw);
      case LanesFormat => VarintWidth(raw);
      case _ =>
    }
  }

  lemma LengthWidth(a: vint, b: vint)
    requires a <= b
    ensures VarintLen(a) <= VarintLen(b)
  {
  }

  /** The bytes of the first entry of a block, beside those of its parameter. */
  lemma EntryBytesWidth(b: Bytes, p: Param)
    requires DecV(b).Some? && DecV(b[DecV(b).value.1..]).Some?
    requires var (num, n) := DecV(b).value; var (len, m) := DecV(b[n..]).value;
             |b| >= n + m + len && !IsProhibitedTp(num) && DecodeTpValue(num, b[n + m..n + m + len]) == Some(p)
    ensures var (num, n) := DecV(b).value; var (len, m) := DecV(b[n..]).value;
            && ParamEncodable(p) && |ParamBytes(p)| <= n + m + len
            && (|ParamBytes(p)| == n + m + len <==>
                  MinimalVarint(b) && MinimalVarint(b[n..]) && MinimalValue(num, b[n + m..n + m + len]))
  {
    hide EncV, DecV, ParamValue, ParamEncodable, DecodeTpValue, IsProhibitedTp, MinimalVarint, MinimalValue, ParamId;
    var (num, n) := DecV(b).value;
    var (len, m) := DecV(b[n..]).value;
    var val := b[n + m..n + m + len];
    VarintWidth(b);
    VarintWidth(b[n..]);
    ValueWidth(num, val);
    ValueShrinks(num, val);
    LengthWidth(|ParamValue(p)|, len);
  }

  lemma {:induction false} BlockWidth(b: Bytes)
    requires TpEntries(b).Some? && DecodeEntries(TpEntries(b).value).Some?
    ensures var ps := DecodeEntries(TpEntries(b).value).value;
            ParamsEncodable(ps) && |TpsBytes(ps)| <= |b| && (|TpsBytes(ps)| == |b| <==> MinimalBlock(b))
    decreases |b|
  {
    hide EncV, DecV, ParamBytes, ParamEncodable, DecodeTpValue, IsProhibitedTp;
    hide MinimalVarint, MinimalValue, Shrinks, ParamWellFormed;
    TpEntriesShrink(b);
    if b == [] {
    } else {
      var (num, n) := DecV(b).value;
      var (len, m) := DecV(b[n..]).value;
      var rest := b[n + m + len..];
      var es, ps := TpEntries(b).value, DecodeEntries(TpEntries(b).value).value;
      assert es[1..] == TpEntries(rest).value && ps[1..] == DecodeEntries(es[1..]).value;
      BlockWidth(rest);
      EntryBytesWidth(b, ps[0]);
    }
  }

  // ---------------------------------------------------------------- frames

  /** The bytes between a varint length and the end that it gives. */
  function BlockOf(b: Bytes): Bytes
    requires Parse(DataShape(true), b).Some?
  {
    var (len, n) := DecV(b).value;
    b[n..n + len]
  }

  /** Every varint of a body is minimal, those inside a parameter block included. */
  predicate MinimalBody(kind: FrameKind, code: vint, b: Bytes)
    requires Parse(ShapeOf(kind, code), b).Some?
  {
    MinimalFields(ShapeOf(kind, code), b) &&
    (kind == QX_TRANSPORT_PARAMETERS && TpEntries(BlockOf(b)).Some? ==> MinimalBlock(BlockOf(b)))
  }

  /** The kind and the code of the frame that the bytes start with, and where its body starts. */
  function Opening(b: Bytes): Option<(FrameKind, vint, nat)> {
    var (code, w) :- DecV(b);
    match FrameByType(code)
    case Some(Active(kind)) => if Parse(ShapeOf(kind, code), b[w..]).Some? then Some((kind, code, w)) else None
    case _ => None
  }

  /** How many bytes the first frame takes; all of them when no frame can be read. */
  function Extent(b: Bytes): (n: nat)
    requires b != []
    ensures 1 <= n <= |b|
  {
    if b[0] == 0 then 1 + ZeroRun(b[1..])
    else if Opening(b).None? then |b|
    else
      var (kind, code, w) := Opening(b).value;
      w + Parse(ShapeOf(kind, code), b[w..]).value.1
  }

  /** Every varint of the first frame after its type is minimal; PADDING has none. */
  predicate MinimalFrame(b: Bytes)
    requires b != []
  {
    b[0] != 0 && Opening(b).Some? ==> var (kind, code, w) := Opening(b).value; MinimalBody(kind, code, b[w..])
  }

  /** Every varint of a payload is minimal. */
  predicate MinimalFrames(b: Bytes)
    decreases |b|
  {
    b != [] ==> MinimalFrame(b) && MinimalFrames(b[Extent(b)..])
  }

  /** Parameter blocks apart, the fields of a frame are the ones it was made from. */
  lemma BuildKeepsFields(kind: FrameKind, code: vint, fs: FieldList)
    requires FrameByType(code) == Some(Active(kind)) && kind != PADDING && kind != QX_TRANSPORT_PARAMETERS
    requires HasShape(ShapeOf(kind, code), fs) && AllPrintable(fs) && Build(kind, code, fs).Ok?
    ensures var f := Build(kind, code, fs).value; FrameWellFormed(f) && !f.Padding? && FieldsOf(f) == fs
  {
    hide FrameByType, FrameWellFormed, HasShape, TypeCode, FieldsOf, AllPrintable;
    hide BuildData, BuildCore, BuildControl, BuildOther;
    if IsData(kind) {
      BackData(kind, code, fs);
    } else if IsOther(kind) {
      BackOther(kind, code, fs);
    } else if IsControl(kind) {
      BackControl(kind, code, fs);
    } else {
      BackCore(kind, code, fs);
    }
  }

  lemma BlockBodyWidth(code: vint, b: Bytes)
    requires DecodeBody(QX_TRANSPORT_PARAMETERS, code, b).Ok?
    ensures var (f, n) := DecodeBody(QX_TRANSPORT_PARAMETERS, code, b).value;
            && f.QxTransportParameters? && ParamsEncodable(f.params) && AllPrintable(FieldsOf(f))
            && |Print(FieldsOf(f))| <= n
            && (|Print(FieldsOf(f))| == n <==> MinimalBody(QX_TRANSPORT_PARAMETERS, code, b))
  {
    hide DecV, EncV, TpEntries, DecodeEntries, TpsBytes, MinimalVarint, MinimalBlock, ParamsEncodable, ValidTps;
    var block := BlockOf(b);
    VarintWidth(b);
    BlockWidth(block);
    var ps := DecodeEntries(TpEntries(block).value).value;
    LengthWidth(|TpsBytes(ps)|, |block|);
  }

  lemma BodyWidth(kind: FrameKind, code: vint, b: Bytes)
    requires FrameByType(code) == Some(Active(kind)) && kind != PADDING && DecodeBody(kind, code, b).Ok?
    ensures var (f, n) := DecodeBody(kind, code, b).value;
            && !f.Repeat? && !f.Padding? && Encodable(f)
            && |Print(FieldsOf(f))| <= n && (|Print(FieldsOf(f))| == n <==> MinimalBody(kind, code, b))
  {
    hide FrameByType, FrameWellFormed, HasShape, TypeCode, FieldsOf, AllPrintable;
    hide Build, Parse, ShapeOf, Encodable, MinimalFields, Print;
    var (fs, n) := Parse(ShapeOf(kind, code), b).value;
    ParseShrinks(ShapeOf(kind, code), b);
    BuildShrinks(kind, code, fs);
    if kind == QX_TRANSPORT_PARAMETERS {
      BlockBodyWidth(code, b);
    } else {
      BuildKeepsFields(kind, code, fs);
      FieldsWidth(ShapeOf(kind, code), b);
    }
  }

  lemma FirstByteOfType(b: Bytes)
    requires DecV(b).Some? && DecV(b).value.1 == VarintLen(DecV(b).value.0)
    ensures b != [] && (b[0] == 0 <==> DecV(b).value.0 == 0)
  {
    hide DecV;
    var (v, w) := DecV(b).value;
    DecodeIsEncode(b);
    assert EncV(v) == b[..w];
    assert EncV(0) == [0];
    if v != 0 {
      NonzeroVarint(v);
    }
    assert b[0] == b[..w][0];
  }

  /** A decoded frame takes its extent, and its encoding takes as much exactly when the frame
      was minimal. */
  lemma DecodedWidth(b: Bytes, enabled: Gates, limit: Option<int>)
    requires DecodeFrameSpec(b, enabled, limit).Ok?
    ensures var (f, n) := DecodeFrameSpec(b, enabled, limit).value;
            b != [] && n == Extent(b) && Encodable(f) && (|Wire(f)| == n <==> MinimalFrame(b))
  {
    hide DecV, EncV, ZeroRun, Parse, ShapeOf, Build, FrameByType, Negotiated;
    hide MinimalBody, Encodable, FieldsOf, Print, TypeCode;
    var (f, n) := DecodeFrameSpec(b, enabled, limit).value;
    var (code, w) := DecV(b).value;
    FirstByteOfType(b);
    FrameShrinks(b, enabled, limit);
    if code == 0 {
      assert |Wire(f)| == n;
    } else {
      var kind := FrameByType(code).value.kind;
      assert kind != PADDING by { KindCodes(PADDING, code); }
      BodyWidth(kind, code, b[w..]);
    }
  }

  /** Encoding what a payload decodes to gives the payload itself exactly when every varint in
      it is minimal, and strictly fewer bytes otherwise. */
  lemma {:induction false} IdenticalWhenMinimal(b: Bytes, enabled: Gates, limit: Option<int>)
    requires DecodeFramesSpec(b, enabled, limit).Ok?
    ensures var fs := DecodeFramesSpec(b, enabled, limit).value;
            && AllEncodable(fs)
            && (WireAll(fs) == b <==> MinimalFrames(b))
            && (|WireAll(fs)| < |b| <==> !MinimalFrames(b))
    decreases |b|
  {
    hide DecodeFrameSpec, MinimalFrame, Extent, Wire, Encodable, FrameWellFormed;
    ListShrinks(b, enabled, limit);
    if b == [] {
    } else {
      var (f, n) := DecodeFrameSpec(b, enabled, limit).value;
      var rest := DecodeFramesSpec(b[n..], enabled, limit).value;
      FrameShrinks(b, enabled, limit);
      DecodedWidth(b, enabled, limit);
      IdenticalWhenMinimal(b[n..], enabled, limit);
      assert ([f] + rest)[1..] == rest;
    }
  }

  // ---------------------------------------------------------------- an example

  /** MAX_DATA 5, with the maximum in two bytes. */
  const WIDE_MAX_DATA: Bytes := [0x10, 0x40, 0x05]

  lemma WideFive()
    ensures EncV(0x10) == [0x10] && EncV(5) == [5] && EncodeWidth(5, 2) == [0x40, 0x05]
  {
    assert ToBytes(5, 2) == ToBytes(0, 1) + [5];
    assert ToBytes(0, 1) == [0];
    assert ToBytes(5, 1) == [5] && ToBytes(0x10, 1) == [0x10];
  }

  lemma WideMaxDataFrame()
    ensures DecodeFrameSpec(WIDE_MAX_DATA, None, None) == Ok((MaxData(5), 3))
    ensures Encodable(MaxData(5)) && Wire(MaxData(5)) == [0x10, 0x05]
  {
    hide EncV, EncodeWidth, DecV;
    WideFive();
    var b := WIDE_MAX_DATA;
    assert b == EncV(0x10) + [0x40, 0x05] && b[1..] == [0x40, 0x05] == EncodeWidth(5, 2) + [];
    DecodeEncode(0x10, [0x40, 0x05]);
    DecodeWidth(5, 2, []);
    EndParse(b[1..][2..]);
    assert Parse(S1(), b[1..]) == Some((V1(5), 2));
    assert DecodeBody(MAX_DATA, 0x10, b[1..]) == Ok((MaxData(5), 2));
    assert Print(V1(5)) == EncV(5) + Print(FNil);
  }

  /** It decodes, and encoding the frame again does not give the same bytes. */
  lemma WideMaxData()
    ensures DecodeFramesSpec(WIDE_MAX_DATA, None, None) == Ok([MaxData(5)])
    ensures WireAll([MaxData(5)]) == [0x10, 0x05] != WIDE_MAX_DATA
    ensures !MinimalFrames(WIDE_MAX_DATA)
  {
    hide EncV, EncodeWidth, DecV, MinimalFrames, DecodeFrameSpec, Wire;
    WideMaxDataFrame();
    assert WIDE_MAX_DATA[3..] == [];
    assert [MaxData(5)][1..] == [] && [MaxData(5)] + [] == [MaxData(5)];
    IdenticalWhenMinimal(WIDE_MAX_DATA, None, None);
  }
}
