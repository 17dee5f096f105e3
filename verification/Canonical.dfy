/** Whole lists of frames: what decoding returns, and that encoding it again is canonical. */
module Canonical {
  import opened Base
  import opened Varint
  import opened Registry
  import opened Fields
  import opened Frames

  type Gates = Option<set<Gate>>

  // ---------------------------------------------------------------- one frame

  lemma OpenShapes(kind: FrameKind, code: vint)
    ensures OpenOnlyLast(ShapeOf(kind, code))
    ensures OpenEnded(ShapeOf(kind, code)) <==>
              (kind == STREAM && !LenBit(code)) || (kind == DATAGRAM && code != 0x31)
  {
    assert forall hasLen: bool :: OpenOnlyLast(DataShape(hasLen)) && (OpenEnded(DataShape(hasLen)) <==> !hasLen);
    assert OpenOnlyLast(S1()) && OpenOnlyLast(S2()) && OpenOnlyLast(S3());
    assert !OpenEnded(S1()) && !OpenEnded(S2()) && !OpenEnded(S3());
    var j := JoinShape();
    assert OpenOnlyLast(j.tail.tail.tail) && !OpenEnded(j.tail.tail.tail);
  }

  lemma TakesRestShape(f: Frame)
    requires !f.Repeat?
    ensures OpenEnded(ShapeOf(KindOf(f), TypeCode(f))) <==> TakesRest(f)
  {
    hide ShapeOf, OpenEnded;
    OpenShapes(KindOf(f), TypeCode(f));
    if f.Stream? {
      StreamBits(HasOff(f), HasLen(f), f.fin);
    }
  }

  lemma {:induction false} ZerosRun(n: int, tail: Bytes)
    requires tail == [] || tail[0] != 0
    ensures ZeroRun(Zeros(n) + tail) == if n > 0 then n else 0
  {
    var b := Zeros(n) + tail;
    if n > 0 {
      assert b[1..] == Zeros(n - 1) + tail;
      ZerosRun(n - 1, tail);
    } else {
      assert b == tail;
    }
  }

  lemma NonzeroType(f: Frame)
    requires !f.Repeat? && !f.Padding?
    ensures TypeCode(f) != 0
  {
  }

  lemma ZeroByte()
    ensures EncV(0) == [0]
  {
  }

  lemma PaddingRoundTrip(n: int, tail: Bytes, enabled: Gates, limit: Option<int>)
    requires n > 0 && (tail == [] || tail[0] != 0)
    ensures DecodeFrameSpec(Zeros(n) + tail, enabled, limit) == Ok((Padding(n), n))
  {
    hide EncV, DecV, ZeroRun, DecodeBody, FrameByType, Negotiated;
    var b := Zeros(n) + tail;
    var rest := Zeros(n - 1) + tail;
    assert b == [0] + rest;
    ZeroByte();
    DecodeEncode(0, rest);
    assert b[1..] == rest;
    ZerosRun(n - 1, tail);
  }

  /** A well-formed frame reads back from its own bytes as itself, and the cursor stops where
      they end; only a frame without a Length needs the record to end there, and PADDING not to
      be followed by more of it. */
  lemma FrameRoundTrip(f: Frame, tail: Bytes, enabled: Gates, limit: Option<int>)
    requires FrameWellFormed(f) && Negotiated(KindOf(f), enabled) && WithinLimit(f, |Wire(f)|, limit)
    requires TakesRest(f) ==> tail == []
    requires f.Padding? && tail != [] ==> tail[0] != 0
    ensures DecodeFrameSpec(Wire(f) + tail, enabled, limit) == Ok((f, |Wire(f)|))
  {
    hide EncV, DecV, FrameWellFormed, Build, ShapeOf, FieldsOf, TypeCode, Negotiated;
    hide FrameByType, Parse, Print, Encodable, KindOf;
    var b := Wire(f) + tail;
    if f.Padding? {
      PaddingRoundTrip(f.count, tail, enabled, limit);
    } else {
      var code, shape, fs := TypeCode(f), ShapeOf(KindOf(f), TypeCode(f)), FieldsOf(f);
      assert b == EncV(code) + (Print(fs) + tail);
      DecodeEncode(code, Print(fs) + tail);
      assert b[|EncV(code)|..] == Print(fs) + tail;
      KindTable(f);
      BuildOwnFields(f);
      OpenShapes(KindOf(f), code);
      TakesRestShape(f);
      ParsePrint(shape, fs, tail);
      assert code != 0 by { NonzeroType(f); }
    }
  }

  lemma ShrinksTransitive(a: Bytes, b: Bytes, c: Bytes)
    requires Shrinks(a, b) && Shrinks(b, c)
    ensures Shrinks(a, c)
  {
  }

  lemma PaddingShrinks(b: Bytes, enabled: Gates, limit: Option<int>)
    requires DecodeFrameSpec(b, enabled, limit).Ok? && DecV(b).Some? && DecV(b).value.0 == 0
    ensures var (f, n) := DecodeFrameSpec(b, enabled, limit).value;
            && FrameWellFormed(f) && Negotiated(KindOf(f), enabled) && WithinLimit(f, n, limit)
            && Wire(f) == b[..n] && DecV(b) == Some((TypeCode(f), VarintLen(TypeCode(f))))
            && f.Padding? && (n < |b| ==> b[n] != 0)
  {
    var (f, n) := DecodeFrameSpec(b, enabled, limit).value;
    DecodeIsEncode(b);
    assert EncV(0) == [0];
    assert b[0] == b[..1][0] == 0;
    assert forall i :: 0 < i < n ==> b[i] == b[1..][i - 1];
  }

  /** What the decoder returns is well formed, passed its gate and its limit, and encodes to a
      canonical form of the bytes it took. */
  lemma FrameShrinks(b: Bytes, enabled: Gates, limit: Option<int>)
    requires DecodeFrameSpec(b, enabled, limit).Ok?
    ensures var (f, n) := DecodeFrameSpec(b, enabled, limit).value;
            && FrameWellFormed(f) && Negotiated(KindOf(f), enabled) && WithinLimit(f, n, limit)
            && Shrinks(Wire(f), b[..n])
            && DecV(b) == Some((TypeCode(f), VarintLen(TypeCode(f))))
            && (TakesRest(f) ==> n == |b|)
            && (f.Padding? && n < |b| ==> b[n] != 0)
  {
    hide EncV, DecV, FrameWellFormed, Build, ShapeOf, FieldsOf, TypeCode, Negotiated;
    hide FrameByType, Parse, Print, Encodable, KindOf;
    var (f, n) := DecodeFrameSpec(b, enabled, limit).value;
    var (code, w) := DecV(b).value;
    DecodeIsEncode(b);
    if code == 0 {
      PaddingShrinks(b, enabled, limit);
    } else {
      var kind := FrameByType(code).value.kind;
      var (fs, m) := Parse(ShapeOf(kind, code), b[w..]).value;
      assert kind != PADDING by { KindCodes(PADDING, code); }
      ParseShrinks(ShapeOf(kind, code), b[w..]);
      BuildShrinks(kind, code, fs);
      OpenShapes(kind, code);
      TakesRestShape(f);
      ShrinksTransitive(Print(FieldsOf(f)), Print(fs), b[w..][..m]);
      ShrinksConcat(EncV(code), b[..w], Print(FieldsOf(f)), b[w..][..m]);
      Cut(b, w, m);
      assert Wire(f) == EncV(code) + Print(FieldsOf(f));
    }
  }

  lemma AckWellFormed(es: seq<AckEntry>)
    ensures FrameWellFormed(PipeAck(es)) <==>
              es != [] && IncreasingEntries(es) && IsVarint(|es|) && EntriesInRange(es)
  {
    hide IncreasingEntries, EntriesInRange;
    assert AllPrintable(FNil);
    assert AllPrintable(FieldsOf(PipeAck(es))) <==> Printable(FEntries(es));
  }

  /** The entry lists that decode as a PIPE_ACK are exactly the non-empty ones in strictly
      increasing (Pipe ID, Lane) order, each entry before all later ones. */
  lemma AcceptedAcks(es: seq<AckEntry>, enabled: Gates)
    requires Negotiated(PIPE_ACK, enabled)
    ensures (exists b, n :: DecodeFrameSpec(b, enabled, None) == Ok((PipeAck(es), n))) <==>
              es != [] && OrderedEntries(es) && IsVarint(|es|) && EntriesInRange(es)
  {
    hide DecodeFrameSpec, EncV, IncreasingEntries, OrderedEntries, EntriesInRange, FrameWellFormed, Negotiated;
    IncreasingIsOrdered(es);
    AckWellFormed(es);
    if FrameWellFormed(PipeAck(es)) {
      FrameRoundTrip(PipeAck(es), [], enabled, None);
    }
    forall b, n | DecodeFrameSpec(b, enabled, None) == Ok((PipeAck(es), n)) ensures FrameWellFormed(PipeAck(es)) {
      FrameShrinks(b, enabled, None);
    }
  }

  /** In an accepted PIPE_ACK every (Pipe ID, Lane) has at most one position. */
  lemma OnePositionPerLane(b: Bytes, enabled: Gates, limit: Option<int>, i: nat, j: nat)
    requires DecodeFrameSpec(b, enabled, limit).Ok? && DecodeFrameSpec(b, enabled, limit).value.0.PipeAck?
    requires var es := DecodeFrameSpec(b, enabled, limit).value.0.entries;
             i < |es| && j < |es| && es[i].pipe == es[j].pipe && es[i].lane == es[j].lane
    ensures i == j
  {
    hide DecodeFrameSpec, Encodable, IncreasingEntries;
    var es := DecodeFrameSpec(b, enabled, limit).value.0.entries;
    FrameShrinks(b, enabled, limit);
    IncreasingIsOrdered(es);
  }

  // ---------------------------------------------------------------- lists of frames

  /** decode_frames: the frames of a payload, one after the other to its end. */
  function DecodeFramesSpec(b: Bytes, enabled: Gates, limit: Option<int>): Result<seq<Frame>>
    decreases |b|
  {
    if b == [] then Ok([])
    else
      var (f, n) :- DecodeFrameSpec(b, enabled, limit);
      var rest :- DecodeFramesSpec(b[n..], enabled, limit);
      Ok([f] + rest)
  }

  predicate AllEncodable(fs: seq<Frame>) {
    forall i :: 0 <= i < |fs| ==> Encodable(fs[i])
  }

  /** encode_frames: the Frames field of a record, or one message. */
  function WireAll(fs: seq<Frame>): Bytes
    requires AllEncodable(fs)
  {
    if fs == [] then [] else Wire(fs[0]) + WireAll(fs[1..])
  }

  lemma {:induction false} WireAppend(fs: seq<Frame>, gs: seq<Frame>)
    requires AllEncodable(fs) && AllEncodable(gs)
    ensures AllEncodable(fs + gs) && WireAll(fs + gs) == WireAll(fs) + WireAll(gs)
  {
    hide Wire, Encodable;
    if fs == [] {
      assert fs + gs == gs;
    } else {
      assert (fs + gs)[0] == fs[0] && (fs + gs)[1..] == fs[1..] + gs;
      WireAppend(fs[1..], gs);
    }
  }

  lemma SingleWire(f: Frame)
    requires Encodable(f)
    ensures AllEncodable([f]) && WireAll([f]) == Wire(f)
  {
    hide Wire;
    assert WireAll([f]) == Wire(f) + WireAll([f][1..]);
  }

  predicate Passes(f: Frame, enabled: Gates, limit: Option<int>)
    requires FrameWellFormed(f)
  {
    Negotiated(KindOf(f), enabled) && WithinLimit(f, |Wire(f)|, limit)
  }

  /** `f` may stand directly before `g`: it ends on its own, and they are not both PADDING. */
  predicate MayPrecede(f: Frame, g: Frame) {
    !TakesRest(f) && !(f.Padding? && g.Padding?)
  }

  /** The lists the decoder can return: well-formed frames that pass, no PADDING next to
      PADDING, and only the last frame without a Length. */
  function Returnable(fs: seq<Frame>, enabled: Gates, limit: Option<int>): (r: bool)
    ensures r ==> AllEncodable(fs)
  {
    fs == [] ||
    (&& FrameWellFormed(fs[0]) && Passes(fs[0], enabled, limit)
     && (|fs| > 1 ==> MayPrecede(fs[0], fs[1]))
     && Returnable(fs[1..], enabled, limit))
  }

  lemma NonzeroVarint(v: vint)
    requires v != 0
    ensures EncV(v)[0] != 0
  {
    if VarintLen(v) == 1 {
      assert EncV(v) == [v];
    }
  }

  lemma FirstByte(f: Frame, rest: Bytes)
    requires FrameWellFormed(f) && !f.Padding?
    ensures (Wire(f) + rest)[0] != 0
  {
    hide FrameWellFormed, Print, FieldsOf, TypeCode, Encodable;
    NonzeroType(f);
    var code := TypeCode(f);
    assert (Wire(f) + rest)[0] == EncV(code)[0];
    NonzeroVarint(code);
  }

  /** A returnable list decodes from its encoding as itself. */
  lemma {:induction false} ListRoundTrip(fs: seq<Frame>, enabled: Gates, limit: Option<int>)
    requires Returnable(fs, enabled, limit)
    ensures DecodeFramesSpec(WireAll(fs), enabled, limit) == Ok(fs)
  {
    hide FrameWellFormed, DecodeFrameSpec, Wire, Encodable, WithinLimit, Negotiated;
    if fs == [] {
    } else {
      var f, rest := fs[0], WireAll(fs[1..]);
      if f.Padding? && rest != [] {
        FirstByte(fs[1], WireAll(fs[1..][1..]));
      }
      FrameRoundTrip(f, rest, enabled, limit);
      assert WireAll(fs)[|Wire(f)|..] == rest;
      ListRoundTrip(fs[1..], enabled, limit);
      assert fs == [f] + fs[1..];
    }
  }

  lemma PaddingFirst(b: Bytes, enabled: Gates, limit: Option<int>)
    requires b != [] && DecodeFrameSpec(b, enabled, limit).Ok?
    requires DecodeFrameSpec(b, enabled, limit).value.0.Padding?
    ensures b[0] == 0
  {
    hide DecodeFrameSpec, FrameWellFormed, Wire;
    FrameShrinks(b, enabled, limit);
    DecodeIsEncode(b);
    assert EncV(0) == [0];
    assert b[0] == b[..1][0];
  }

  /** Every decoded list is returnable and encodes to a canonical form of the payload. */
  lemma {:induction false} ListShrinks(b: Bytes, enabled: Gates, limit: Option<int>)
    requires DecodeFramesSpec(b, enabled, limit).Ok?
    ensures var fs := DecodeFramesSpec(b, enabled, limit).value;
            Returnable(fs, enabled, limit) && Shrinks(WireAll(fs), b)
    decreases |b|
  {
    hide FrameWellFormed, DecodeFrameSpec, Wire, Encodable, Negotiated, TypeCode, DecV, KindOf, TakesRest;
    if b == [] {
    } else {
      var (f, n) := DecodeFrameSpec(b, enabled, limit).value;
      var rest := DecodeFramesSpec(b[n..], enabled, limit).value;
      var fs := [f] + rest;
      FrameShrinks(b, enabled, limit);
      ListShrinks(b[n..], enabled, limit);
      ShrinksConcat(Wire(f), b[..n], WireAll(rest), b[n..]);
      assert b == b[..n] + b[n..] && fs[1..] == rest;
      if rest != [] && rest[0].Padding? {
        PaddingFirst(b[n..], enabled, limit);
      }
    }
  }

  /** Canonicalisation: whatever bytes decode to `fs`, encoding `fs` succeeds, is no longer,
      decodes to `fs` again, and is the same bytes when it has the same length. */
  lemma Canonicalisation(b: Bytes, enabled: Gates, limit: Option<int>)
    requires DecodeFramesSpec(b, enabled, limit).Ok?
    ensures var fs := DecodeFramesSpec(b, enabled, limit).value;
            && AllEncodable(fs)
            && |WireAll(fs)| <= |b|
            && (|WireAll(fs)| == |b| ==> WireAll(fs) == b)
            && DecodeFramesSpec(WireAll(fs), enabled, limit) == Ok(fs)
  {
    ListShrinks(b, enabled, limit);
    ListRoundTrip(DecodeFramesSpec(b, enabled, limit).value, enabled, limit);
  }

  /** Exactly the returnable lists are decoded from some payload. */
  lemma Image(fs: seq<Frame>, enabled: Gates, limit: Option<int>)
    ensures Returnable(fs, enabled, limit) <==> exists b :: DecodeFramesSpec(b, enabled, limit) == Ok(fs)
  {
    if Returnable(fs, enabled, limit) {
      ListRoundTrip(fs, enabled, limit);
    }
    forall b | DecodeFramesSpec(b, enabled, limit) == Ok(fs) ensures Returnable(fs, enabled, limit) {
      ListShrinks(b, enabled, limit);
    }
  }

  // ---------------------------------------------------------------- gates

  lemma BodyKind(kind: FrameKind, code: vint, b: Bytes)
    requires FrameByType(code) == Some(Active(kind)) && kind != PADDING && DecodeBody(kind, code, b).Ok?
    ensures var f := DecodeBody(kind, code, b).value.0; !f.Repeat? && KindOf(f) == kind
  {
    hide FrameByType, ShapeOf, Build, Parse, TypeCode, FieldsOf, Print, FrameWellFormed;
    var (fs, _) := Parse(ShapeOf(kind, code), b).value;
    ParseShrinks(ShapeOf(kind, code), b);
    BuildShrinks(kind, code, fs);
  }

  lemma PaddingKind(n: int)
    ensures KindOf(Padding(n)) == PADDING
  {
  }

  lemma FrameGates(b: Bytes, enabled: Gates, limit: Option<int>)
    ensures DecodeFrameSpec(b, enabled, limit).Ok? <==>
              DecodeFrameSpec(b, None, limit).Ok?
              && var f := DecodeFrameSpec(b, None, limit).value.0; !f.Repeat? && Negotiated(KindOf(f), enabled)
    ensures DecodeFrameSpec(b, enabled, limit).Ok? ==>
              DecodeFrameSpec(b, enabled, limit) == DecodeFrameSpec(b, None, limit)
  {
    hide DecV, FrameByType, DecodeBody, KindOf, WithinLimit, ZeroRun;
    if DecV(b).Some? {
      var (code, w) := DecV(b).value;
      if code == 0 {
        assert KindOf(Padding(1 + ZeroRun(b[1..]))) == PADDING by { PaddingKind(1 + ZeroRun(b[1..])); }
      } else if FrameByType(code).Some? && FrameByType(code).value.Active? {
        var kind := FrameByType(code).value.kind;
        KindCodes(PADDING, code);
        if DecodeBody(kind, code, b[w..]).Ok? {
          BodyKind(kind, code, b[w..]);
        }
      }
    }
  }

  predicate AllNegotiated(fs: seq<Frame>, enabled: Gates) {
    forall i :: 0 <= i < |fs| ==> !fs[i].Repeat? && Negotiated(KindOf(fs[i]), enabled)
  }

  /** Gates only filter: a payload decodes under the gates E exactly when it decodes with
      everything enabled and each of its frames has a gate in E, and then to the same frames. */
  lemma {:induction false} GatesOnlyFilter(b: Bytes, enabled: Gates, limit: Option<int>)
    ensures DecodeFramesSpec(b, enabled, limit).Ok? <==>
              DecodeFramesSpec(b, None, limit).Ok? && AllNegotiated(DecodeFramesSpec(b, None, limit).value, enabled)
    ensures DecodeFramesSpec(b, enabled, limit).Ok? ==>
              DecodeFramesSpec(b, enabled, limit) == DecodeFramesSpec(b, None, limit)
    decreases |b|
  {
    hide DecodeFrameSpec, Negotiated, KindOf;
    if b == [] {
    } else {
      FrameGates(b, enabled, limit);
      if DecodeFrameSpec(b, None, limit).Ok? {
        var (f, n) := DecodeFrameSpec(b, None, limit).value;
        GatesOnlyFilter(b[n..], enabled, limit);
        if DecodeFramesSpec(b[n..], None, limit).Ok? {
          var rest := DecodeFramesSpec(b[n..], None, limit).value;
          assert ([f] + rest)[0] == f && ([f] + rest)[1..] == rest;
          assert AllNegotiated([f] + rest, enabled) <==>
                   !f.Repeat? && Negotiated(KindOf(f), enabled) && AllNegotiated(rest, enabled);
        }
      }
    }
  }

  /** Enabling more features never changes a successful decode. */
  lemma MoreGates(b: Bytes, fewer: set<Gate>, more: set<Gate>, limit: Option<int>)
    requires fewer <= more && DecodeFramesSpec(b, Some(fewer), limit).Ok?
    ensures DecodeFramesSpec(b, Some(more), limit) == DecodeFramesSpec(b, Some(fewer), limit)
  {
    hide DecodeFrameSpec, DecodeFramesSpec;
    GatesOnlyFilter(b, Some(fewer), limit);
    GatesOnlyFilter(b, Some(more), limit);
    forall kind: FrameKind | Negotiated(kind, Some(fewer)) ensures Negotiated(kind, Some(more)) {
      assert GatesOf(kind) * fewer <= GatesOf(kind) * more;
    }
  }
}
