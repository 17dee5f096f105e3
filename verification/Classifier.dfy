/** The incremental check of a carrier's first record (tools/zmuxwire/frames.py lines 602-641),
    and the sizes of the frames it looks for. */
module Classifier {
  import opened Base
  import opened Varint
  import opened Registry
  import opened Fields
  import opened TransportParameters
  import opened Frames
  import opened Canonical
  import opened Records

  datatype Verdict = Session | Joining | Laned | NeedMore | Reject

  datatype Candidate = Candidate(kind: Verdict, magic: Bytes)

  const QX_TP_PREFIX: Bytes := EncV(QX_TRANSPORT_PARAMETERS_TYPE)
  const PIPE_JOIN_PREFIX: Bytes := EncV(PIPE_JOIN_TYPE)
  const PIPE_LANE_PREFIX: Bytes := EncV(PIPE_LANE_TYPE)

  const MIN_TP_RECORD: nat := |QX_TP_PREFIX| + 1
  const MIN_JOIN_RECORD: nat := |PIPE_JOIN_PREFIX| + 1 + 1 + 1 + 1 + 1 + 1 + 16
  const MIN_LANE_RECORD: nat := |PIPE_LANE_PREFIX| + LANE_KEY_BYTES + 1 + 1

  datatype Policy = Policy(acceptJoin: bool, acceptLane: bool, maxSize: int)

  function Candidates(size: vint, p: Policy): seq<Candidate> {
    (if MIN_TP_RECORD <= size <= p.maxSize then [Candidate(Session, QX_TP_PREFIX)] else [])
    + (if p.acceptJoin && MIN_JOIN_RECORD <= size <= p.maxSize then [Candidate(Joining, PIPE_JOIN_PREFIX)] else [])
    + (if p.acceptLane && MIN_LANE_RECORD <= size <= p.maxSize then [Candidate(Laned, PIPE_LANE_PREFIX)] else [])
  }

  /** Python's s[:n]. */
  function Take(s: Bytes, n: nat): Bytes {
    if n < |s| then s[..n] else s
  }

  predicate Compatible(magic: Bytes, rest: Bytes) {
    Take(magic, |rest|) == Take(rest, |magic|)
  }

  function Alive(cs: seq<Candidate>, rest: Bytes): seq<Candidate> {
    if cs == [] then []
    else (if Compatible(cs[0].magic, rest) then [cs[0]] else []) + Alive(cs[1..], rest)
  }

  function FirstComplete(alive: seq<Candidate>, rest: Bytes): Verdict {
    if alive == [] then NeedMore
    else if |rest| >= |alive[0].magic| then alive[0].kind
    else FirstComplete(alive[1..], rest)
  }

  /** classify_first_bytes. */
  function Classify(prefix: Bytes, p: Policy): Verdict {
    if prefix == [] then NeedMore
    else if |prefix| < WidthOf(prefix[0]) then NeedMore
    else
      var (size, w) := DecV(prefix).value;
      var rest := prefix[w..];
      var alive := Alive(Candidates(size, p), rest);
      if alive == [] then Reject else FirstComplete(alive, rest)
  }

  // ---------------------------------------------------------------- the verdict by kind

  function Magic(kind: Verdict): Bytes
    requires kind == Session || kind == Joining || kind == Laned
  {
    match kind case Session => QX_TP_PREFIX case Joining => PIPE_JOIN_PREFIX case Laned => PIPE_LANE_PREFIX
  }

  function MinSize(kind: Verdict): nat
    requires kind == Session || kind == Joining || kind == Laned
  {
    match kind case Session => MIN_TP_RECORD case Joining => MIN_JOIN_RECORD case Laned => MIN_LANE_RECORD
  }

  /** A first record of this kind and size is acceptable. */
  predicate Eligible(kind: Verdict, size: vint, p: Policy)
    requires kind == Session || kind == Joining || kind == Laned
  {
    (kind == Joining ==> p.acceptJoin) && (kind == Laned ==> p.acceptLane) && MinSize(kind) <= size <= p.maxSize
  }

  predicate Open(kind: Verdict, size: vint, rest: Bytes, p: Policy)
    requires kind == Session || kind == Joining || kind == Laned
  {
    Eligible(kind, size, p) && Compatible(Magic(kind), rest)
  }

  lemma Prefixes()
    ensures |QX_TP_PREFIX| == 8 && QX_TP_PREFIX[0] == 0xFF
    ensures |PIPE_JOIN_PREFIX| == 4 && PIPE_JOIN_PREFIX[0] == 0x9A
    ensures |PIPE_LANE_PREFIX| == 4 && PIPE_LANE_PREFIX[0] == 0xBA
  {
    hide ToBytes, Pow256;
    PowersOf256();
    LeadingByte(QX_TRANSPORT_PARAMETERS_TYPE, 8, 0x3F);
    LeadingByte(PIPE_JOIN_TYPE, 4, 0x1A);
    LeadingByte(PIPE_LANE_TYPE, 4, 0x3A);
  }

  lemma Minima()
    ensures MIN_TP_RECORD == 9 && MIN_JOIN_RECORD == 26 && MIN_LANE_RECORD == 22
  {
    hide EncV;
    Prefixes();
  }

  lemma {:induction false} AliveAppend(a: seq<Candidate>, b: seq<Candidate>, rest: Bytes)
    ensures Alive(a + b, rest) == Alive(a, rest) + Alive(b, rest)
  {
    hide Compatible;
    if a == [] {
      assert a + b == b && [] + Alive(b, rest) == Alive(b, rest);
    } else {
      var first := if Compatible(a[0].magic, rest) then [a[0]] else [];
      assert (a + b)[0] == a[0] && (a + b)[1..] == a[1..] + b;
      AliveAppend(a[1..], b, rest);
      assert Alive(a + b, rest) == first + (Alive(a[1..], rest) + Alive(b, rest));
    }
  }

  lemma {:induction false} FirstAppend(a: seq<Candidate>, b: seq<Candidate>, rest: Bytes)
    requires forall c :: c in a ==> c.kind != NeedMore
    ensures FirstComplete(a + b, rest) ==
              if FirstComplete(a, rest) != NeedMore then FirstComplete(a, rest) else FirstComplete(b, rest)
  {
    if a == [] {
      assert a + b == b;
    } else {
      assert (a + b)[1..] == a[1..] + b;
      FirstAppend(a[1..], b, rest);
    }
  }

  function Chosen(kind: Verdict, size: vint, p: Policy): seq<Candidate>
    requires kind == Session || kind == Joining || kind == Laned
  {
    if Eligible(kind, size, p) then [Candidate(kind, Magic(kind))] else []
  }

  lemma AliveOne(kind: Verdict, size: vint, rest: Bytes, p: Policy)
    requires kind == Session || kind == Joining || kind == Laned
    ensures Alive(Chosen(kind, size, p), rest) ==
              if Open(kind, size, rest, p) then [Candidate(kind, Magic(kind))] else []
    ensures FirstComplete(Alive(Chosen(kind, size, p), rest), rest) ==
              if Open(kind, size, rest, p) && |rest| >= |Magic(kind)| then kind else NeedMore
  {
    hide Magic, Eligible, Compatible;
    var one := [Candidate(kind, Magic(kind))];
    assert one[1..] == [];
    assert Alive([], rest) == [];
  }

  function Judge(size: vint, rest: Bytes, p: Policy): Verdict {
    if Open(Session, size, rest, p) && |rest| >= |QX_TP_PREFIX| then Session
    else if Open(Joining, size, rest, p) && |rest| >= |PIPE_JOIN_PREFIX| then Joining
    else if Open(Laned, size, rest, p) && |rest| >= |PIPE_LANE_PREFIX| then Laned
    else if Open(Session, size, rest, p) || Open(Joining, size, rest, p) || Open(Laned, size, rest, p) then NeedMore
    else Reject
  }

  /** The verdict once the Size is complete, without the candidate lists. */
  lemma ClassifyIsJudge(prefix: Bytes, p: Policy)
    requires DecV(prefix).Some?
    ensures var (size, w) := DecV(prefix).value; Classify(prefix, p) == Judge(size, prefix[w..], p)
  {
    hide Alive, FirstComplete, Open;
    var (size, w) := DecV(prefix).value;
    var rest := prefix[w..];
    var s, j, l := Chosen(Session, size, p), Chosen(Joining, size, p), Chosen(Laned, size, p);
    assert Candidates(size, p) == s + j + l;
    AliveAppend(s + j, l, rest);
    AliveAppend(s, j, rest);
    AliveOne(Session, size, rest, p);
    AliveOne(Joining, size, rest, p);
    AliveOne(Laned, size, rest, p);
    FirstAppend(Alive(s, rest), Alive(j, rest), rest);
    FirstAppend(Alive(s, rest) + Alive(j, rest), Alive(l, rest), rest);
  }

  // ---------------------------------------------------------------- (a) a verdict is final

  lemma OpenExtension(kind: Verdict, size: vint, a: Bytes, b: Bytes, p: Policy)
    requires kind == Session || kind == Joining || kind == Laned
    ensures Open(kind, size, a + b, p) ==> Open(kind, size, a, p)
    ensures |a| >= |Magic(kind)| ==> (Open(kind, size, a, p) <==> Open(kind, size, a + b, p))
  {
    hide Magic, Eligible;
    var m := Magic(kind);
    if Compatible(m, a + b) {
      assert Take(m, |a|) == Take(Take(m, |a + b|), |a|);
      assert Take(a, |m|) == Take(Take(a + b, |m|), |a|);
    }
  }

  /** At most one kind is open once a byte of the frame is there. */
  lemma OneOpen(size: vint, rest: Bytes, p: Policy)
    requires rest != []
    ensures Open(Session, size, rest, p) ==> rest[0] == 0xFF
    ensures Open(Joining, size, rest, p) ==> rest[0] == 0x9A
    ensures Open(Laned, size, rest, p) ==> rest[0] == 0xBA
  {
    hide EncV;
    Prefixes();
    assert forall m: Bytes | m != [] && Compatible(m, rest) ::
             Take(m, |rest|)[0] == m[0] && Take(rest, |m|)[0] == rest[0];
  }

  lemma MagicOf()
    ensures Magic(Session) == QX_TP_PREFIX && Magic(Joining) == PIPE_JOIN_PREFIX && Magic(Laned) == PIPE_LANE_PREFIX
    ensures |QX_TP_PREFIX| == 8 && |PIPE_JOIN_PREFIX| == |PIPE_LANE_PREFIX| == 4
  {
  }

  lemma Complete(a: Bytes, p: Policy)
    requires Classify(a, p) != NeedMore
    ensures DecV(a).Some?
  {
  }

  /** Once the classifier has decided, every extension of the bytes gets the same answer. */
  lemma VerdictIsFinal(a: Bytes, b: Bytes, p: Policy)
    requires Classify(a, p) != NeedMore
    ensures Classify(a + b, p) == Classify(a, p)
  {
    hide DecV, Open, Magic;
    assert DecV(a).Some? by { Complete(a, p); }
    var (size, w) := DecV(a).value;
    DecodePrefix(a + b, |a|);
    AppendDrop(a, b);
    ClassifyIsJudge(a, p);
    ClassifyIsJudge(a + b, p);
    var rest := a[w..];
    assert (a + b)[w..] == rest + b;
    OpenExtension(Session, size, rest, b, p);
    OpenExtension(Joining, size, rest, b, p);
    OpenExtension(Laned, size, rest, b, p);
    MagicOf();
    if rest != [] {
      OneOpen(size, rest, p);
    }
  }

  // ---------------------------------------------------------------- sizes of the first frames

  lemma JoinLength(j: Join)
    requires JoinInRange(j)
    ensures AllPrintable(JoinFields(j))
    ensures |Print(JoinFields(j))| ==
              2 + |j.locator| + VarintLen(j.pipe) + VarintLen(j.fateGroup) + VarintLen(j.priority) + |j.token|
  {
    hide EncV;
    JoinPrintable(j);
    var f5 := FCons(FFixed(j.token), FNil);
    var f4 := FCons(FVarint(j.priority), f5);
    var f3 := FCons(FVarint(j.fateGroup), f4);
    var f2 := FCons(FByte(JoinFlags(j)), f3);
    assert AllPrintable(FNil);
    assert AllPrintable(f5);
    assert AllPrintable(f3);
    assert Print(f5) == j.token + Print(FNil);
    assert Print(f4) == EncV(j.priority) + Print(f5);
    assert Print(f3) == EncV(j.fateGroup) + Print(f4);
    assert Print(f2) == [JoinFlags(j)] + Print(f3);
    assert Print(FCons(FVarint(j.pipe), f2)) == EncV(j.pipe) + Print(f2);
  }

  lemma WireMinima(f: Frame)
    requires FrameWellFormed(f)
    ensures f.QxTransportParameters? ==> |Wire(f)| >= MIN_TP_RECORD
    ensures f.PipeJoin? ==> |Wire(f)| >= MIN_JOIN_RECORD
    ensures f.PipeLane? ==> |Wire(f)| >= MIN_LANE_RECORD
  {
    hide EncV, TpsBytes, TpsWellFormed;
    Minima();
    Prefixes();
    if f.PipeJoin? {
      JoinPrintable(f.join);
      JoinLength(f.join);
    } else if f.PipeLane? {
      assert AllPrintable(V2(f.pipe, f.lane)) && AllPrintable(V1(f.lane));
      assert Print(V2(f.pipe, f.lane)) == EncV(f.pipe) + Print(V1(f.lane));
    } else if f.QxTransportParameters? {
      assert Print(FieldsOf(f)) == PrintField(FVarBytes(TpsBytes(f.params))) + Print(FNil);
    }
  }

  /** No accepted frame of these kinds is shorter than the minimum the classifier uses. */
  lemma FirstFrameMinima(b: Bytes, enabled: Gates, limit: Option<int>)
    requires DecodeFrameSpec(b, enabled, limit).Ok?
    ensures var (f, n) := DecodeFrameSpec(b, enabled, limit).value;
            && (f.QxTransportParameters? ==> n >= MIN_TP_RECORD)
            && (f.PipeJoin? ==> n >= MIN_JOIN_RECORD)
            && (f.PipeLane? ==> n >= MIN_LANE_RECORD)
  {
    hide DecodeFrameSpec, FrameWellFormed, Wire, EncV;
    FrameShrinks(b, enabled, limit);
    WireMinima(DecodeFrameSpec(b, enabled, limit).value.0);
  }

  lemma Unparse(s: Shape, b: Bytes)
    requires s.Then? && Parse(s, b).Some?
    ensures ParseField(s.head, b).Some?
    ensures var (f, m) := ParseField(s.head, b).value;
            Parse(s.tail, b[m..]).Some? && Parse(s, b) == Prepend(f, m, Parse(s.tail, b[m..]))
  {
    hide ParseField;
  }

  lemma VarintBytes(b: Bytes)
    requires ParseField(KVarint, b).Some?
    ensures ParseField(KVarint, b).value.1 <= 8
  {
    hide DecV;
  }

  lemma LocatorBytes(fs: FieldList)
    requires Build(PIPE_JOIN, PIPE_JOIN_TYPE, fs).Ok?
    ensures fs.FCons? && fs.head.FByteBytes? && |fs.head.bs| <= MAX_LOCATOR_BYTES
  {
  }

  lemma ByteBytesLength(b: Bytes)
    requires ParseField(KByteBytes, b).Some?
    ensures var (f, n) := ParseField(KByteBytes, b).value; f.FByteBytes? && n == 1 + |f.bs|
  {
  }

  lemma FixedLength(b: Bytes)
    ensures ParseField(KByte, b).Some? ==> ParseField(KByte, b).value.1 == 1
    ensures ParseField(KFixed(16), b).Some? ==> ParseField(KFixed(16), b).value.1 == 16
  {
  }

  lemma JoinBodyAtMost58(b: Bytes)
    requires DecodeBody(PIPE_JOIN, PIPE_JOIN_TYPE, b).Ok?
    ensures DecodeBody(PIPE_JOIN, PIPE_JOIN_TYPE, b).value.1 <= 58
  {
    hide Parse, ParseField, Build;
    var s0 := JoinShape();
    var (fs, n) := Parse(s0, b).value;
    Unparse(s0, b);
    LocatorBytes(fs);
    var m0 := ParseField(s0.head, b).value.1;
    ByteBytesLength(b);
    var b1 := b[m0..];
    Unparse(s0.tail, b1);
    VarintBytes(b1);
    var b2 := b1[ParseField(KVarint, b1).value.1..];
    Unparse(s0.tail.tail, b2);
    FixedLength(b2);
    var b3 := b2[ParseField(KByte, b2).value.1..];
    Unparse(s0.tail.tail.tail, b3);
    VarintBytes(b3);
    var b4 := b3[ParseField(KVarint, b3).value.1..];
    Unparse(s0.tail.tail.tail.tail, b4);
    VarintBytes(b4);
    var b5 := b4[ParseField(KVarint, b4).value.1..];
    Unparse(s0.tail.tail.tail.tail.tail, b5);
    FixedLength(b5);
    EndParse(b5[ParseField(KFixed(16), b5).value.1..]);
  }

  /** No accepted PIPE_JOIN is longer than 62 bytes, whatever widths its varints have, so the
      check against 64 bytes never fires. */
  lemma JoinAtMost62(b: Bytes, enabled: Gates, limit: Option<int>)
    requires DecodeFrameSpec(b, enabled, limit).Ok?
    ensures var (f, n) := DecodeFrameSpec(b, enabled, limit).value; f.PipeJoin? ==> n <= 62
  {
    hide DecV, Parse, Build, FrameByType, ParseField, ShapeOf, FrameWellFormed, Wire;
    FrameShrinks(b, enabled, limit);
    var (f, n) := DecodeFrameSpec(b, enabled, limit).value;
    if f.PipeJoin? {
      KindCodes(PIPE_JOIN, PIPE_JOIN_TYPE);
      JoinBodyAtMost58(b[4..]);
    }
  }

  // The bounds are attained.

  function Smallest(kind: Verdict): Frame
    requires kind == Session || kind == Joining || kind == Laned
  {
    match kind
    case Session => QxTransportParameters([])
    case Joining => PipeJoin(Join([0], 0, Up, false, false, 0, 0, Zeros(16)))
    case Laned => PipeLane(Zeros(16), 0, 0)
  }

  const LARGEST_JOIN: Frame :=
    PipeJoin(Join(Zeros(16), MAX_VARINT, Down, true, true, MAX_VARINT, MAX_VARINT, Zeros(16)))

  lemma SmallestBlock()
    ensures FrameWellFormed(Smallest(Session)) && |Wire(Smallest(Session))| == MinSize(Session)
    ensures Magic(Session) <= Wire(Smallest(Session))
  {
    hide EncV;
    Minima();
    Prefixes();
    assert TpDict([]) == map[];
    assert Print(FieldsOf(Smallest(Session))) == PrintField(FVarBytes([])) + Print(FNil);
  }

  /** The bytes of a join. */
  lemma JoinWire(j: Join)
    requires JoinInRange(j) && 1 <= |j.locator| <= MAX_LOCATOR_BYTES && |j.token| == JOIN_TOKEN_BYTES
    ensures FrameWellFormed(PipeJoin(j)) && PIPE_JOIN_PREFIX <= Wire(PipeJoin(j))
    ensures |Wire(PipeJoin(j))| ==
              22 + |j.locator| + VarintLen(j.pipe) + VarintLen(j.fateGroup) + VarintLen(j.priority)
  {
    hide EncV, Print, AllPrintable, VarintLen;
    Prefixes();
    JoinLength(j);
  }

  lemma SmallestJoin()
    ensures FrameWellFormed(Smallest(Joining)) && |Wire(Smallest(Joining))| == MinSize(Joining)
    ensures Magic(Joining) <= Wire(Smallest(Joining))
  {
    hide EncV, Zeros, Wire, FrameWellFormed;
    Minima();
    JoinWire(Smallest(Joining).join);
  }

  lemma SmallestLane()
    ensures FrameWellFormed(Smallest(Laned)) && |Wire(Smallest(Laned))| == MinSize(Laned)
    ensures Magic(Laned) <= Wire(Smallest(Laned))
  {
    hide EncV, Zeros;
    Minima();
    Prefixes();
    assert Print(V2(0, 0)) == EncV(0) + Print(V1(0));
  }

  lemma SmallestFrames(kind: Verdict)
    requires kind == Session || kind == Joining || kind == Laned
    ensures FrameWellFormed(Smallest(kind)) && |Wire(Smallest(kind))| == MinSize(kind)
    ensures Magic(kind) <= Wire(Smallest(kind))
  {
    hide EncV, Zeros, FrameWellFormed, Wire;
    match kind
    case Session => SmallestBlock();
    case Joining => SmallestJoin();
    case Laned => SmallestLane();
  }

  lemma LargestJoin()
    ensures FrameWellFormed(LARGEST_JOIN) && |Wire(LARGEST_JOIN)| == 62
    ensures LARGEST_JOIN.PipeJoin?
  {
    hide EncV, Zeros, Wire, FrameWellFormed;
    JoinWire(LARGEST_JOIN.join);
  }

  /** 26 and 62 bytes are the lengths of actual joins, and 9 and 22 those of a parameter frame
      and a PIPE_LANE. */
  lemma BoundsAttained()
    ensures FrameWellFormed(LARGEST_JOIN) && |Wire(LARGEST_JOIN)| == 62
    ensures FrameWellFormed(Smallest(Session)) && |Wire(Smallest(Session))| == 9
    ensures FrameWellFormed(Smallest(Joining)) && |Wire(Smallest(Joining))| == 26
    ensures FrameWellFormed(Smallest(Laned)) && |Wire(Smallest(Laned))| == 22
    ensures DecodeFrameSpec(Wire(LARGEST_JOIN), None, None) == Ok((LARGEST_JOIN, 62))
  {
    hide EncV, Zeros, DecodeFrameSpec, FrameWellFormed, Wire, Smallest;
    Minima();
    SmallestFrames(Session);
    SmallestFrames(Joining);
    SmallestFrames(Laned);
    LargestJoin();
    FrameRoundTrip(LARGEST_JOIN, [], None, None);
    assert Wire(LARGEST_JOIN) + [] == Wire(LARGEST_JOIN);
  }

  // ---------------------------------------------------------------- (b) and (c): sound

  /** The kind of first record that a frame opens. */
  predicate Opens(f: Frame, kind: Verdict) {
    match kind
    case Session => f.QxTransportParameters?
    case Joining => f.PipeJoin?
    case Laned => f.PipeLane?
    case _ => false
  }

  predicate IsKind(kind: Verdict) {
    kind == Session || kind == Joining || kind == Laned
  }

  /** The frame that opens a first record of a kind. */
  function FirstKind(kind: Verdict): FrameKind
    requires IsKind(kind)
  {
    match kind case Session => QX_TRANSPORT_PARAMETERS case Joining => PIPE_JOIN case Laned => PIPE_LANE
  }

  lemma OpensByType(f: Frame, kind: Verdict)
    requires IsKind(kind) && !f.Repeat?
    ensures Opens(f, kind) <==> EncV(TypeCode(f)) == Magic(kind)
  {
    hide EncV;
    if EncV(TypeCode(f)) == Magic(kind) {
      DecodeEncode(TypeCode(f), []);
      DecodeEncode(QX_TRANSPORT_PARAMETERS_TYPE, []);
      DecodeEncode(PIPE_JOIN_TYPE, []);
      DecodeEncode(PIPE_LANE_TYPE, []);
    }
  }

  /** The first frame of a non-empty payload starts with the bytes of its type. */
  lemma FirstDecoded(body: Bytes, enabled: Gates)
    requires body != [] && DecodeFramesSpec(body, enabled, None).Ok?
    ensures var fs := DecodeFramesSpec(body, enabled, None).value;
            && fs != [] && DecodeFrameSpec(body, enabled, None).Ok?
            && fs[0] == DecodeFrameSpec(body, enabled, None).value.0
            && !fs[0].Repeat? && EncV(TypeCode(fs[0])) <= body
  {
    hide DecodeFrameSpec, DecV, EncV, TypeCode;
    FrameShrinks(body, enabled, None);
    DecodeIsEncode(body);
    var f := DecodeFrameSpec(body, enabled, None).value.0;
    assert EncV(TypeCode(f)) == body[..VarintLen(TypeCode(f))];
  }

  /** The body of the record that a buffer starts with. */
  lemma RecordBody(b: Bytes, maxSize: int, enabled: Gates)
    requires DecodeRecordSpec(b, maxSize, enabled).Ok? && DecodeRecordSpec(b, maxSize, enabled).value.Some?
    ensures DecV(b).Some?
    ensures var (size, w) := DecV(b).value; var (fs, n) := DecodeRecordSpec(b, maxSize, enabled).value.value;
            1 <= size <= maxSize && n == w + size <= |b| && DecodeFramesSpec(b[w..w + size], enabled, None) == Ok(fs)
  {
    hide DecV, DecodeFramesSpec;
  }

  /** Bytes at the front of a body agree with as much of the body as a prefix holds. */
  lemma MagicInPrefix(a: Bytes, b: Bytes, w: nat, size: nat, m: Bytes)
    requires w <= |a| && w + size <= |a + b| && m <= (a + b)[w..w + size]
    ensures Compatible(m, a[w..])
  {
    var rest, body := a[w..], (a + b)[w..w + size];
    forall i | 0 <= i < |m| && i < |rest| ensures m[i] == rest[i] {
      assert rest[i] == (a + b)[w + i] == body[i];
    }
  }

  /** A record that is decoded and opens with this kind was open to the classifier, on every
      prefix that holds its Size. */
  lemma AcceptedIsOpen(a: Bytes, b: Bytes, enabled: Gates, p: Policy, kind: Verdict)
    requires IsKind(kind) && (kind == Joining ==> p.acceptJoin) && (kind == Laned ==> p.acceptLane)
    requires DecV(a).Some? && DecodeRecordSpec(a + b, p.maxSize, enabled).Ok?
    requires DecodeRecordSpec(a + b, p.maxSize, enabled).value.Some?
    requires var fs := DecodeRecordSpec(a + b, p.maxSize, enabled).value.value.0; fs != [] && Opens(fs[0], kind)
    ensures var (size, w) := DecV(a).value; Open(kind, size, a[w..], p)
  {
    hide DecV, EncV, DecodeRecordSpec, DecodeFramesSpec, DecodeFrameSpec, TypeCode, Magic;
    var (size, w) := DecV(a).value;
    DecodePrefix(a + b, |a|);
    AppendDrop(a, b);
    RecordBody(a + b, p.maxSize, enabled);
    var fs := DecodeRecordSpec(a + b, p.maxSize, enabled).value.value.0;
    var body := (a + b)[w..w + size];
    FirstDecoded(body, enabled);
    FirstFrameMinima(body, enabled, None);
    OpensByType(fs[0], kind);
    var m, rest := Magic(kind), a[w..];
    assert m <= body;
    MagicInPrefix(a, b, w, size, m);
  }

  /** And bytes that a prefix holds in full at the front of its body open the body. */
  lemma MagicInBody(a: Bytes, b: Bytes, w: nat, size: nat, m: Bytes)
    requires w <= |a| && w + size <= |a + b| && |m| <= size && m <= a[w..]
    ensures m <= (a + b)[w..w + size]
  {
    var rest, body := a[w..], (a + b)[w..w + size];
    forall i | 0 <= i < |m| ensures m[i] == body[i] {
      assert rest[i] == (a + b)[w + i] == body[i];
    }
  }

  /** Two minimal types at the front of the same bytes are the same. */
  lemma SameMagic(f: Frame, kind: Verdict, body: Bytes)
    requires IsKind(kind) && !f.Repeat? && EncV(TypeCode(f)) <= body && Magic(kind) <= body
    ensures EncV(TypeCode(f)) == Magic(kind)
  {
    hide EncV, DecV, TypeCode;
    var c := TypeCode(f);
    DecodeEncode(c, body[|EncV(c)|..]);
    assert EncV(c) + body[|EncV(c)|..] == body;
    var m := Magic(kind);
    var t := FirstCode(FirstKind(kind));
    assert m == EncV(t);
    DecodeEncode(t, body[|m|..]);
    assert m + body[|m|..] == body;
  }

  /** After session, join or lane, the first record of any extension opens with that frame if
      it decodes at all, whatever the receiver's gates and limit. */
  lemma PositiveVerdictIsSound(a: Bytes, b: Bytes, p: Policy, maxSize: int, enabled: Gates)
    requires IsKind(Classify(a, p))
    requires DecodeRecordSpec(a + b, maxSize, enabled).Ok? && DecodeRecordSpec(a + b, maxSize, enabled).value.Some?
    ensures var fs := DecodeRecordSpec(a + b, maxSize, enabled).value.value.0;
            fs != [] && Opens(fs[0], Classify(a, p))
  {
    hide DecV, EncV, DecodeRecordSpec, DecodeFramesSpec, DecodeFrameSpec, TypeCode, Magic, Classify, Opens;
    Complete(a, p);
    ClassifyIsJudge(a, p);
    var kind := Classify(a, p);
    var (size, w) := DecV(a).value;
    DecodePrefix(a + b, |a|);
    AppendDrop(a, b);
    RecordBody(a + b, maxSize, enabled);
    var body := (a + b)[w..w + size];
    FirstDecoded(body, enabled);
    var f := DecodeFramesSpec(body, enabled, None).value[0];
    var m, rest := Magic(kind), a[w..];
    MagicOf();
    Minima();
    assert m <= rest by { assert Take(m, |rest|) == m && Take(rest, |m|) == m; }
    MagicInBody(a, b, w, size, m);
    SameMagic(f, kind, body);
    OpensByType(f, kind);
  }

  predicate Accepted(f: Frame, p: Policy) {
    f.QxTransportParameters? || (p.acceptJoin && f.PipeJoin?) || (p.acceptLane && f.PipeLane?)
  }

  /** These bytes start with a complete record that opens with an acceptable frame. */
  predicate AcceptedRecord(b: Bytes, p: Policy, enabled: Gates) {
    var r := DecodeRecordSpec(b, p.maxSize, enabled);
    r.Ok? && r.value.Some? && r.value.value.0 != [] && Accepted(r.value.value.0[0], p)
  }

  /** After reject, no extension has an acceptable first record. */
  lemma RejectIsSound(a: Bytes, b: Bytes, p: Policy, enabled: Gates)
    requires Classify(a, p) == Reject
    ensures !AcceptedRecord(a + b, p, enabled)
  {
    hide DecV, DecodeRecordSpec, Classify, Open;
    Complete(a, p);
    ClassifyIsJudge(a, p);
    if AcceptedRecord(a + b, p, enabled) {
      var f := DecodeRecordSpec(a + b, p.maxSize, enabled).value.value.0[0];
      var kind := if f.QxTransportParameters? then Session else if f.PipeJoin? then Joining else Laned;
      AcceptedIsOpen(a, b, enabled, p, kind);
    }
  }

  // ---------------------------------------------------------------- (d) live

  /** A record of exactly `size` bytes that opens with the smallest frame of a kind, filled up
      with PADDING. */
  function Filler(kind: Verdict, size: nat): seq<Frame>
    requires IsKind(kind)
  {
    var f := Smallest(kind);
    if size > MinSize(kind) then [f, Padding(size - MinSize(kind))] else [f]
  }

  lemma SmallestPasses(kind: Verdict, enabled: Gates)
    requires IsKind(kind) && Negotiated(FirstKind(kind), enabled) && FrameWellFormed(Smallest(kind))
    ensures Passes(Smallest(kind), enabled, None) && !TakesRest(Smallest(kind)) && !Smallest(kind).Padding?
  {
    hide FrameWellFormed, Wire, Zeros, GatesOf;
  }

  lemma PadOnly(n: nat, enabled: Gates)
    requires n > 0
    ensures Returnable([Padding(n)], enabled, None) && |WireAll([Padding(n)])| == n
  {
    assert [Padding(n)][1..] == [];
  }

  lemma FillerReturnable(kind: Verdict, size: nat, enabled: Gates)
    requires IsKind(kind) && size >= MinSize(kind) && Negotiated(FirstKind(kind), enabled)
    ensures Returnable(Filler(kind, size), enabled, None)
    ensures |WireAll(Filler(kind, size))| == size && Magic(kind) <= WireAll(Filler(kind, size))
  {
    hide FrameWellFormed, Wire, Magic, MinSize, Encodable;
    SmallestFrames(kind);
    var f, fs := Smallest(kind), Filler(kind, size);
    SmallestPasses(kind, enabled);
    if size > MinSize(kind) {
      var pad := Padding(size - MinSize(kind));
      PadOnly(pad.count, enabled);
      assert fs[1..] == [pad] && fs[1] == pad;
    } else {
      assert fs[1..] == [];
    }
  }

  /** A prefix with a complete Size can be completed to any returnable record of that size
      whose bytes it starts. */
  lemma CompleteRecord(a: Bytes, fs: seq<Frame>, maxSize: int, enabled: Gates) returns (b: Bytes)
    requires DecV(a).Some? && Returnable(fs, enabled, None)
    requires var (size, w) := DecV(a).value; 1 <= size <= maxSize && |WireAll(fs)| == size && a[w..] <= WireAll(fs)
    ensures var (size, w) := DecV(a).value;
            DecodeRecordSpec(a + b, maxSize, enabled) == Ok(Some((fs, w + size)))
  {
    hide DecV, DecodeFramesSpec, Returnable, WireAll;
    var (size, w) := DecV(a).value;
    var body, rest := WireAll(fs), a[w..];
    b := body[|rest|..];
    AppendDrop(a, b);
    DecodePrefix(a + b, |a|);
    assert a == a[..w] + rest && rest + b == body;
    assert a + b == a[..w] + body;
    assert (a + b)[w..w + size] == body;
    ListRoundTrip(fs, enabled, None);
  }

  /** This kind of first record is still open after the prefix, and negotiated. */
  predicate Reachable(kind: Verdict, a: Bytes, p: Policy, enabled: Gates)
    requires IsKind(kind) && DecV(a).Some?
  {
    var (size, w) := DecV(a).value;
    Open(kind, size, a[w..], p) && Negotiated(FirstKind(kind), enabled)
  }

  lemma OpenPrefix(kind: Verdict, size: vint, rest: Bytes, p: Policy)
    requires IsKind(kind) && Open(kind, size, rest, p) && |rest| < |Magic(kind)|
    ensures rest <= Magic(kind) && 1 <= MinSize(kind) <= size <= p.maxSize
    ensures (kind == Joining ==> p.acceptJoin) && (kind == Laned ==> p.acceptLane)
  {
    hide EncV;
    Minima();
  }

  lemma FillerAccepted(kind: Verdict, size: nat, p: Policy)
    requires IsKind(kind) && (kind == Joining ==> p.acceptJoin) && (kind == Laned ==> p.acceptLane)
    ensures Filler(kind, size) != [] && Accepted(Filler(kind, size)[0], p)
  {
  }

  /** An undecided prefix can be completed to any kind of first record that it can reach. */
  lemma Completion(kind: Verdict, a: Bytes, p: Policy, enabled: Gates) returns (b: Bytes)
    requires IsKind(kind) && Classify(a, p) == NeedMore && DecV(a).Some? && Reachable(kind, a, p, enabled)
    ensures AcceptedRecord(a + b, p, enabled)
  {
    hide DecV, DecodeRecordSpec, Classify, Open, Filler, WireAll, Negotiated;
    ClassifyIsJudge(a, p);
    var (size, w) := DecV(a).value;
    MagicOf();
    OpenPrefix(kind, size, a[w..], p);
    FillerReturnable(kind, size, enabled);
    FillerAccepted(kind, size, p);
    b := CompleteRecord(a, Filler(kind, size), p.maxSize, enabled);
  }

  /** What an accepted record opens with could be reached from every prefix that holds its Size. */
  lemma AcceptedIsReachable(a: Bytes, b: Bytes, p: Policy, enabled: Gates) returns (kind: Verdict)
    requires DecV(a).Some? && AcceptedRecord(a + b, p, enabled)
    ensures IsKind(kind) && Reachable(kind, a, p, enabled)
  {
    hide DecV, DecodeRecordSpec, Open, Negotiated, DecodeFramesSpec, DecodeFrameSpec, FrameWellFormed;
    var f := DecodeRecordSpec(a + b, p.maxSize, enabled).value.value.0[0];
    kind := if f.QxTransportParameters? then Session else if f.PipeJoin? then Joining else Laned;
    AcceptedIsOpen(a, b, enabled, p, kind);
    RecordBody(a + b, p.maxSize, enabled);
    var (size, w) := DecV(a + b).value;
    FirstDecoded((a + b)[w..w + size], enabled);
    FrameShrinks((a + b)[w..w + size], enabled, None);
  }

  lemma RejectReachesNothing(kind: Verdict, a: Bytes, p: Policy, enabled: Gates)
    requires IsKind(kind) && DecV(a).Some? && Reachable(kind, a, p, enabled)
    ensures Classify(a, p) != Reject
  {
    hide DecV, Classify, Open, Negotiated;
    ClassifyIsJudge(a, p);
  }

  /** Under any gates: from a complete Size without a positive verdict, an acceptable first
      record is still possible exactly when some kind of it is open and negotiated. */
  lemma LiveUnderGates(a: Bytes, p: Policy, enabled: Gates)
    requires DecV(a).Some? && !IsKind(Classify(a, p))
    ensures (exists b: Bytes :: AcceptedRecord(a + b, p, enabled)) <==>
            (exists kind :: IsKind(kind) && Reachable(kind, a, p, enabled))
  {
    hide DecV, Classify, AcceptedRecord, Reachable;
    forall b: Bytes | AcceptedRecord(a + b, p, enabled)
      ensures exists kind :: IsKind(kind) && Reachable(kind, a, p, enabled)
    {
      var kind := AcceptedIsReachable(a, b, p, enabled);
    }
    if kind :| IsKind(kind) && Reachable(kind, a, p, enabled) {
      RejectReachesNothing(kind, a, p, enabled);
      var b := Completion(kind, a, p, enabled);
    }
  }

  /** Every kind of first record that the policy accepts is negotiated. */
  predicate AdmitsPolicy(p: Policy, enabled: Gates) {
    (p.acceptJoin ==> Negotiated(PIPE_JOIN, enabled)) && (p.acceptLane ==> Negotiated(PIPE_LANE, enabled))
  }

  lemma OpenIsAccepted(kind: Verdict, size: vint, rest: Bytes, p: Policy)
    requires IsKind(kind) && Open(kind, size, rest, p)
    ensures (kind == Joining ==> p.acceptJoin) && (kind == Laned ==> p.acceptLane)
  {
  }

  /** An undecided prefix with a complete Size has an extension with an acceptable first record. */
  lemma NeedMoreIsLive(a: Bytes, p: Policy, enabled: Gates) returns (b: Bytes)
    requires Classify(a, p) == NeedMore && DecV(a).Some? && AdmitsPolicy(p, enabled)
    ensures AcceptedRecord(a + b, p, enabled)
  {
    hide DecV, Classify, Open, AcceptedRecord;
    ClassifyIsJudge(a, p);
    var (size, w) := DecV(a).value;
    var rest := a[w..];
    var kind := if Open(Session, size, rest, p) then Session
                else if Open(Joining, size, rest, p) then Joining
                else Laned;
    OpenIsAccepted(kind, size, rest, p);
    b := Completion(kind, a, p, enabled);
  }

  /** With a complete Size the classifier is exact for a receiver that has negotiated what its
      policy accepts: it rejects exactly the prefixes that no extension turns into an acceptable
      first record, and undecided prefixes all have one. */
  lemma ClassifierIsExact(a: Bytes, p: Policy, enabled: Gates)
    requires DecV(a).Some? && AdmitsPolicy(p, enabled) && !IsKind(Classify(a, p))
    ensures Classify(a, p) == Reject <==> forall b: Bytes :: !AcceptedRecord(a + b, p, enabled)
  {
    hide DecV, Classify, AcceptedRecord;
    if Classify(a, p) == Reject {
      forall b: Bytes ensures !AcceptedRecord(a + b, p, enabled) {
        RejectIsSound(a, b, p, enabled);
      }
    } else {
      var b := NeedMoreIsLive(a, p, enabled);
    }
  }

  // ---------------------------------------------------------------- the Size still incomplete

  /** What the bytes of an incomplete Size make of it, and one more than the most it can lack. */
  function SizeSoFar(a: Bytes): (nat, nat)
    requires a != [] && |a| <= WidthOf(a[0])
  {
    var unit := Pow256(WidthOf(a[0]) - |a|);
    (FromBytes([a[0] % 64] + a[1..]) * unit, unit)
  }

  /** Some Size that starts with the bytes so far, which do not yet complete it, lies between
      the smallest first record and the receiver's limit. */
  predicate HopefulSize(a: Bytes, p: Policy)
    requires DecV(a).None?
  {
    MIN_TP_RECORD <= p.maxSize &&
    (a != [] ==>
       var (least, unit) := SizeSoFar(a);
       least <= p.maxSize && MIN_TP_RECORD <= least + unit - 1)
  }

  /** The Size that a prefix and its missing bytes make. */
  lemma SizeFromParts(a: Bytes, y: Bytes, tail: Bytes)
    requires a != [] && |a| + |y| == WidthOf(a[0])
    ensures DecV(a + y + tail) == Some((FromBytes([a[0] % 64] + a[1..]) * Pow256(|y|) + FromBytes(y), |a| + |y|))
  {
    var b := a + y + tail;
    var w := |a| + |y|;
    assert b[..w] == a + y;
    assert [b[..w][0] % 64] + b[..w][1..] == [a[0] % 64] + a[1..] + y;
    FromBytesAppend([a[0] % 64] + a[1..], y);
  }

  lemma AcceptedSize(b: Bytes, p: Policy, enabled: Gates)
    requires AcceptedRecord(b, p, enabled)
    ensures DecV(b).Some? && MIN_TP_RECORD <= DecV(b).value.0 <= p.maxSize
  {
    hide DecV, DecodeRecordSpec, DecodeFramesSpec, DecodeFrameSpec, EncV, TypeCode;
    RecordBody(b, p.maxSize, enabled);
    var (size, w) := DecV(b).value;
    var body := b[w..w + size];
    FirstDecoded(body, enabled);
    FirstFrameMinima(body, enabled, None);
    Minima();
  }

  lemma EnoughForSize(a: Bytes, b: Bytes)
    requires a != [] && DecV(a).None? && DecV(a + b).Some?
    ensures |a| < WidthOf(a[0]) <= |a| + |b|
  {
    hide Varint.ValueOf;
    assert (a + b)[0] == a[0];
  }

  lemma SizeOfExtension(a: Bytes, b: Bytes)
    requires a != [] && DecV(a).None? && DecV(a + b).Some?
    ensures |a| <= WidthOf(a[0])
    ensures var (least, unit) := SizeSoFar(a); least <= DecV(a + b).value.0 < least + unit
  {
    hide FromBytes, Pow256;
    var k := WidthOf(a[0]) - |a|;
    assert k <= |b| by { EnoughForSize(a, b); }
    AppendAssoc(a, b[..k], b[k..]);
    assert b == b[..k] + b[k..];
    SizeFromParts(a, b[..k], b[k..]);
    ToFromBytes(b[..k]);
    hide DecV;
  }

  lemma ShortOfSize(a: Bytes)
    requires a != [] && DecV(a).None?
    ensures |a| < WidthOf(a[0])
  {
    hide Varint.ValueOf;
  }

  lemma Nine()
    ensures EncV(9) + [] == [9]
  {
  }

  lemma HopefulBytes(a: Bytes, p: Policy) returns (y: Bytes)
    requires DecV(a).None? && HopefulSize(a, p)
    ensures DecV(a + y).Some? && 9 <= DecV(a + y).value.0 <= p.maxSize && DecV(a + y).value.1 == |a + y|
  {
    hide EncV, FromBytes, Pow256, ToBytes, DecV;
    Minima();
    if a == [] {
      y := [9];
      Nine();
      DecodeEncode(9, []);
      assert a + y == [9];
    } else {
      ShortOfSize(a);
      var k := WidthOf(a[0]) - |a|;
      var least := FromBytes([a[0] % 64] + a[1..]) * Pow256(k);
      var size := if least < 9 then 9 else least;
      y := ToBytes(size - least, k);
      FromToBytes(size - least, k);
      SizeFromParts(a, y, []);
      assert a + y + [] == a + y;
    }
  }

  lemma UndecidedAfterSize(a: Bytes, p: Policy, enabled: Gates)
    requires DecV(a).Some? && 9 <= DecV(a).value.0 <= p.maxSize && DecV(a).value.1 == |a|
    ensures Classify(a, p) == NeedMore && Reachable(Session, a, p, enabled)
  {
    hide DecV, Classify;
    ClassifyIsJudge(a, p);
    Minima();
    MagicOf();
    assert Open(Session, DecV(a).value.0, [], p);
  }

  lemma HopefulExtension(a: Bytes, p: Policy, enabled: Gates) returns (b: Bytes)
    requires DecV(a).None? && HopefulSize(a, p)
    ensures AcceptedRecord(a + b, p, enabled)
  {
    hide AcceptedRecord, EncV, Classify, DecV, HopefulSize;
    var y := HopefulBytes(a, p);
    UndecidedAfterSize(a + y, p, enabled);
    var c := Completion(Session, a + y, p, enabled);
    b := y + c;
    AppendAssoc(a, y, c);
  }

  /** While the Size is incomplete the answer is need-more whatever it is; an acceptable first
      record is still possible, under any gates, exactly when the Size is hopeful. */
  lemma IncompleteSize(a: Bytes, p: Policy, enabled: Gates)
    requires DecV(a).None?
    ensures Classify(a, p) == NeedMore
    ensures HopefulSize(a, p) <==> exists b: Bytes :: AcceptedRecord(a + b, p, enabled)
  {
    hide AcceptedRecord, EncV;
    if HopefulSize(a, p) {
      var b := HopefulExtension(a, p, enabled);
    }
    forall b: Bytes | AcceptedRecord(a + b, p, enabled) ensures HopefulSize(a, p) {
      AcceptedSize(a + b, p, enabled);
      if a != [] {
        SizeOfExtension(a, b);
      }
    }
  }

  /** A first byte after which no Size is within a limit of 65535 bytes. */
  const HOPELESS: Bytes := [0xFF]

  lemma HopelessSize()
    ensures DecV(HOPELESS).None? && !HopefulSize(HOPELESS, Policy(true, false, 65535))
  {
    hide EncV;
    PowersOf256();
    assert FromBytes([0x3F]) == FromBytes([0x3F][..0]) * 256 + 0x3F == 0x3F;
    assert [HOPELESS[0] % 64] + HOPELESS[1..] == [0x3F];
  }

  /** The classifier asks for more after it, and nothing that follows is acceptable. */
  lemma HopelessNeedsMore(b: Bytes, enabled: Gates)
    ensures var p := Policy(true, false, 65535);
            Classify(HOPELESS, p) == NeedMore && !AcceptedRecord(HOPELESS + b, p, enabled)
  {
    hide AcceptedRecord, EncV, Classify;
    var p := Policy(true, false, 65535);
    HopelessSize();
    IncompleteSize(HOPELESS, p, enabled);
  }
}
