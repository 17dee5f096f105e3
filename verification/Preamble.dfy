/** The stream preamble (tools/zmuxwire/preamble.py lines 9-64). A TLV has the wire form of an
    opaque transport parameter: a varint type, a varint length, the value. */
module Preamble {
  import opened Base
  import opened Varint
  import opened Registry
  import opened TransportParameters
  import BlockDecoder
  import Layout

  type Tlv = TpEntry

  const OPEN_INFO: vint := 0x01
  const PRIORITY: vint := 0x02
  const PIPE_CARRIER: vint := 0x05

  /** The TLV types with status "active". */
  predicate IsKnown(t: vint) {
    t == OPEN_INFO || t == PRIORITY || t == PIPE_CARRIER
  }

  /** Delivered to the application: its own range, without the GREASE values in it. */
  predicate IsApp(t: vint) {
    !IsKnown(t) && APP_TLV_FIRST <= t <= APP_TLV_LAST && !IsGreaseTlv(t)
  }

  predicate IsIgnored(t: vint) {
    !IsKnown(t) && !IsApp(t)
  }

  // ---------------------------------------------------------------- encoding

  function AsParams(tlvs: seq<Tlv>): (ps: seq<Param>)
    ensures |ps| == |tlvs| && forall i :: 0 <= i < |tlvs| ==> ps[i] == Opaque(tlvs[i].0, tlvs[i].1)
  {
    seq(|tlvs|, i requires 0 <= i < |tlvs| => Opaque(tlvs[i].0, tlvs[i].1))
  }

  predicate PreambleEncodable(tlvs: seq<Tlv>) {
    ParamsEncodable(AsParams(tlvs)) && IsVarint(|TpsBytes(AsParams(tlvs))|)
  }

  /** encode_preamble. */
  function PreambleBytes(tlvs: seq<Tlv>): Bytes
    requires PreambleEncodable(tlvs)
  {
    var body := TpsBytes(AsParams(tlvs));
    EncV(|body|) + body
  }

  // ---------------------------------------------------------------- meaning

  datatype Parsed = Parsed(openInfo: Option<Bytes>, priority: Option<(int, bool)>, pipeCarrier: bool,
                           appTlvs: seq<Tlv>, ignored: seq<vint>)

  /** The value of the first TLV of a type. */
  function Find(tlvs: seq<Tlv>, t: vint): Option<Bytes> {
    if tlvs == [] then None
    else if tlvs[0].0 == t then Some(tlvs[0].1)
    else Find(tlvs[1..], t)
  }

  function AppTlvs(tlvs: seq<Tlv>): seq<Tlv> {
    if tlvs == [] then []
    else (if IsApp(tlvs[0].0) then [tlvs[0]] else []) + AppTlvs(tlvs[1..])
  }

  function IgnoredTypes(tlvs: seq<Tlv>): seq<vint> {
    if tlvs == [] then []
    else (if IsIgnored(tlvs[0].0) then [tlvs[0].0] else []) + IgnoredTypes(tlvs[1..])
  }

  function PriorityOf(value: Bytes): (int, bool)
    requires |value| == 1
  {
    (value[0] / 32, value[0] % 32 >= 16)
  }

  /** A known TLV with a value of its form; other TLVs may hold anything. */
  predicate WellFormedTlv(e: Tlv) {
    (e.0 == PRIORITY ==> |e.1| == 1 && e.1[0] % 16 == 0) && (e.0 == PIPE_CARRIER ==> e.1 == [])
  }

  /** Every known type occurs at most once, with a well-formed value. */
  predicate Acceptable(tlvs: seq<Tlv>) {
    && (forall i :: 0 <= i < |tlvs| ==> WellFormedTlv(tlvs[i]))
    && (forall i, j :: 0 <= i < j < |tlvs| && IsKnown(tlvs[i].0) ==> tlvs[i].0 != tlvs[j].0)
  }

  lemma {:induction false} FindIsThere(tlvs: seq<Tlv>, t: vint)
    ensures Find(tlvs, t).Some? <==> exists e :: e in tlvs && e.0 == t
    ensures Find(tlvs, t).Some? ==> (t, Find(tlvs, t).value) in tlvs
  {
    if tlvs == [] {
    } else {
      FindIsThere(tlvs[1..], t);
      assert tlvs == [tlvs[0]] + tlvs[1..];
      assert tlvs[0] in tlvs;
    }
  }

  /** What acceptable TLVs say. */
  function Meaning(tlvs: seq<Tlv>): Parsed
    requires Acceptable(tlvs)
  {
    FindIsThere(tlvs, PRIORITY);
    var priority := Find(tlvs, PRIORITY);
    Parsed(Find(tlvs, OPEN_INFO),
           if priority.Some? then Some(PriorityOf(priority.value)) else None,
           Find(tlvs, PIPE_CARRIER).Some?, AppTlvs(tlvs), IgnoredTypes(tlvs))
  }

  /** What the data of a first frame parses to, and the length of its preamble. Every error is
      a PROTOCOL_VIOLATION. */
  function PreambleSpec(data: Bytes, limit: int): Result<(Parsed, nat)> {
    match DecV(data)
    case None => Err(ProtocolViolation)
    case Some((len, n)) =>
      if n + len > limit || n + len > |data| then Err(ProtocolViolation)
      else
        match TpEntries(data[n..n + len])
        case None => Err(ProtocolViolation)
        case Some(tlvs) => if Acceptable(tlvs) then Ok((Meaning(tlvs), n + len)) else Err(ProtocolViolation)
  }

  // ---------------------------------------------------------------- growing lists

  lemma {:induction false} FindAppend(tlvs: seq<Tlv>, e: Tlv, t: vint)
    ensures Find(tlvs + [e], t) ==
              if Find(tlvs, t).Some? then Find(tlvs, t) else if e.0 == t then Some(e.1) else None
  {
    if tlvs == [] {
      assert tlvs + [e] == [e] && [e][1..] == [];
    } else {
      assert (tlvs + [e])[1..] == tlvs[1..] + [e];
      FindAppend(tlvs[1..], e, t);
    }
  }

  lemma {:induction false} AppAppend(tlvs: seq<Tlv>, e: Tlv)
    ensures AppTlvs(tlvs + [e]) == AppTlvs(tlvs) + (if IsApp(e.0) then [e] else [])
  {
    hide IsApp;
    var last := if IsApp(e.0) then [e] else [];
    if tlvs == [] {
      assert tlvs + [e] == [e] && [e][1..] == [];
      assert AppTlvs([e]) == last + AppTlvs([]);
    } else {
      var first := if IsApp(tlvs[0].0) then [tlvs[0]] else [];
      assert (tlvs + [e])[0] == tlvs[0] && (tlvs + [e])[1..] == tlvs[1..] + [e];
      AppAppend(tlvs[1..], e);
      assert AppTlvs(tlvs + [e]) == first + (AppTlvs(tlvs[1..]) + last);
    }
  }

  lemma {:induction false} IgnoredAppend(tlvs: seq<Tlv>, e: Tlv)
    ensures IgnoredTypes(tlvs + [e]) == IgnoredTypes(tlvs) + (if IsIgnored(e.0) then [e.0] else [])
  {
    hide IsIgnored;
    var last := if IsIgnored(e.0) then [e.0] else [];
    if tlvs == [] {
      assert tlvs + [e] == [e] && [e][1..] == [];
      assert IgnoredTypes([e]) == last + IgnoredTypes([]);
    } else {
      var first := if IsIgnored(tlvs[0].0) then [tlvs[0].0] else [];
      assert (tlvs + [e])[0] == tlvs[0] && (tlvs + [e])[1..] == tlvs[1..] + [e];
      IgnoredAppend(tlvs[1..], e);
      assert IgnoredTypes(tlvs + [e]) == first + (IgnoredTypes(tlvs[1..]) + last);
    }
  }

  lemma AcceptableAppend(tlvs: seq<Tlv>, e: Tlv)
    ensures Acceptable(tlvs + [e]) <==>
              Acceptable(tlvs) && WellFormedTlv(e) && (IsKnown(e.0) ==> Find(tlvs, e.0).None?)
  {
    hide WellFormedTlv, IsKnown;
    FindIsThere(tlvs, e.0);
    var all := tlvs + [e];
    assert forall i :: 0 <= i < |tlvs| ==> all[i] == tlvs[i];
    assert all[|tlvs|] == e;
  }

  lemma {:induction false} UnacceptablePrefix(a: seq<Tlv>, b: seq<Tlv>)
    requires !Acceptable(a)
    ensures !Acceptable(a + b)
  {
    hide WellFormedTlv, IsKnown;
    assert forall i :: 0 <= i < |a| ==> (a + b)[i] == a[i];
  }

  lemma MeaningAppend(tlvs: seq<Tlv>, e: Tlv)
    requires Acceptable(tlvs) && Acceptable(tlvs + [e]) && WellFormedTlv(e)
    ensures var m := Meaning(tlvs);
            Meaning(tlvs + [e]) ==
              if e.0 == OPEN_INFO then m.(openInfo := Some(e.1))
              else if e.0 == PRIORITY then m.(priority := Some((e.1[0] / 32, e.1[0] % 32 >= 16)))
              else if e.0 == PIPE_CARRIER then m.(pipeCarrier := true)
              else if IsApp(e.0) then m.(appTlvs := m.appTlvs + [e])
              else m.(ignored := m.ignored + [e.0])
  {
    hide Find, AppTlvs, IgnoredTypes, Acceptable;
    AcceptableAppend(tlvs, e);
    FindAppend(tlvs, e, OPEN_INFO);
    FindAppend(tlvs, e, PRIORITY);
    FindAppend(tlvs, e, PIPE_CARRIER);
    AppAppend(tlvs, e);
    IgnoredAppend(tlvs, e);
  }

  // ---------------------------------------------------------------- the parser

  /** decode_varint at a position before `end`: the varint may be read past `end`. */
  method ReadLoose(data: Bytes, start: nat, end: nat) returns (r: Result<vint>, pos: nat)
    requires start < end <= |data|
    ensures r.Err? ==> r.code == ProtocolViolation && DecV(data[start..end]).None?
    ensures r.Ok? && pos > end ==> DecV(data[start..end]).None?
    ensures r.Ok? ==> start < pos
    ensures r.Ok? && pos <= end ==> DecV(data[start..end]) == Some((r.value, pos - start))
  {
    hide DecV;
    var w;
    r, pos, w := DecodeVarint(data, start, ProtocolViolation);
    SliceOfSlice(data, start, |data|, 0, end - start);
    assert data[start..|data|] == data[start..];
    DecodePrefix(data[start..], end - start);
  }

  lemma SliceEnd(data: Bytes, start: nat, end: nat, pos: nat)
    requires start <= pos <= end <= |data|
    ensures data[start..end][pos - start..] == data[pos..end]
  {
    SliceOfSlice(data, start, end, pos - start, end - start);
    assert data[start..end][pos - start..end - start] == data[start..end][pos - start..];
  }

  /** The first TLV of a list, step by step. */
  lemma TlvUnfold(b: Bytes)
    requires b != []
    ensures DecV(b).None? ==> TpEntries(b).None?
    ensures DecV(b).Some? ==>
              var (t, n) := DecV(b).value;
              && (DecV(b[n..]).None? ==> TpEntries(b).None?)
              && (DecV(b[n..]).Some? ==>
                    var (len, m) := DecV(b[n..]).value;
                    TpEntries(b) == if |b| < n + m + len then None
                                    else BlockDecoder.After([(t, b[n + m..n + m + len])], TpEntries(b[n + m + len..])))
  {
    hide DecV;
  }

  /** A type without a length is not a TLV. */
  lemma TypeAlone(b: Bytes)
    requires b != [] && (DecV(b).Some? ==> DecV(b).value.1 == |b|)
    ensures TpEntries(b).None?
  {
    hide DecV;
    BlockDecoder.NothingToRead();
  }

  /** One TLV before `end`: the type and the length may be read past `end`, but not accepted. */
  method ReadTlv(data: Bytes, start: nat, end: nat) returns (r: Result<Tlv>, pos: nat)
    requires start < end <= |data|
    ensures r.Err? ==> r.code == ProtocolViolation && TpEntries(data[start..end]).None?
    ensures r.Ok? ==> start < pos <= end
    ensures r.Ok? ==> TpEntries(data[start..end]) == BlockDecoder.After([r.value], TpEntries(data[pos..end]))
  {
    hide DecV, TpEntries;
    ghost var b := data[start..end];
    TlvUnfold(b);
    pos := start;
    var t, p1 := ReadLoose(data, start, end);
    if t.Err? {
      return Err(t.code), pos;
    }
    if p1 >= end {
      TypeAlone(b);
      return Err(ProtocolViolation), pos;
    }
    SliceEnd(data, start, end, p1);
    var ln, p2 := ReadLoose(data, p1, end);
    if ln.Err? {
      return Err(ln.code), pos;
    }
    if p2 > end || p2 + ln.value > end {
      return Err(ProtocolViolation), pos;
    }
    pos := p2 + ln.value;
    SliceOfSlice(data, start, end, p2 - start, pos - start);
    SliceEnd(data, start, end, pos);
    return Ok((t.value, data[p2..p2 + ln.value])), pos;
  }

  lemma NothingYet()
    ensures Acceptable([]) && Meaning([]) == Parsed(None, None, false, [], [])
    ensures forall t :: Find([], t).None?
  {
  }

  lemma NoTlvs()
    ensures TpEntries([]) == Some([])
  {
  }

  lemma Regroup(read: seq<Tlv>, e: Tlv, rest: Option<seq<Tlv>>)
    ensures BlockDecoder.After(read, BlockDecoder.After([e], rest)) == BlockDecoder.After(read + [e], rest)
  {
    if rest.Some? {
      assert read + ([e] + rest.value) == read + [e] + rest.value;
    }
  }

  lemma FindGrows(read: seq<Tlv>, e: Tlv)
    ensures forall t :: Find(read + [e], t).Some? <==> Find(read, t).Some? || t == e.0
  {
    hide Find;
    forall t ensures Find(read + [e], t).Some? <==> Find(read, t).Some? || t == e.0 {
      FindAppend(read, e, t);
    }
  }

  /** decode_preamble. */
  method DecodePreamble(data: Bytes, limit: int) returns (r: Result<(Parsed, nat)>)
    ensures r == PreambleSpec(data, limit)
  {
    hide DecV, TpEntries, Acceptable, Meaning;
    if data == [] {
      BlockDecoder.NothingToRead();
      return Err(ProtocolViolation);
    }
    var bodyLen, pos, n := DecodeVarint(data, 0, ProtocolViolation);
    assert data[0..] == data;
    if bodyLen.Err? {
      return Err(ProtocolViolation);
    }
    var total := pos + bodyLen.value;
    if total > limit {
      return Err(ProtocolViolation);
    }
    if total > |data| {
      return Err(ProtocolViolation);
    }
    var end := total;
    NothingYet();
    var parsed := Parsed(None, None, false, [], []);
    var seen: set<vint> := {};
    ghost var read: seq<Tlv> := [];
    ghost var all := TpEntries(data[pos..end]);
    BlockDecoder.NothingReadYet(all);
    while pos < end
      invariant n <= pos <= end
      invariant all == BlockDecoder.After(read, TpEntries(data[pos..end]))
      invariant Acceptable(read) && parsed == Meaning(read)
      invariant forall t :: t in seen <==> IsKnown(t) && Find(read, t).Some?
    {
      var e, next := ReadTlv(data, pos, end);
      if e.Err? {
        return Err(e.code);
      }
      ghost var rest := TpEntries(data[next..end]);
      pos := next;
      var (t, val) := e.value;
      Regroup(read, (t, val), rest);
      AcceptableAppend(read, (t, val));
      if rest.Some? && !Acceptable(read + [(t, val)]) {
        UnacceptablePrefix(read + [(t, val)], rest.value);
      }
      FindGrows(read, (t, val));
      if Acceptable(read + [(t, val)]) {
        MeaningAppend(read, (t, val));
      }
      if IsKnown(t) {
        if t in seen {
          return Err(ProtocolViolation);
        }
        seen := seen + {t};
        if t == PRIORITY {
          if |val| != 1 || val[0] % 16 != 0 {
            return Err(ProtocolViolation);
          }
          parsed := parsed.(priority := Some((val[0] / 32, val[0] % 32 >= 16)));
        } else if t == OPEN_INFO {
          parsed := parsed.(openInfo := Some(val));
        } else {
          if |val| != 0 {
            return Err(ProtocolViolation);
          }
          parsed := parsed.(pipeCarrier := true);
        }
      } else if APP_TLV_FIRST <= t <= APP_TLV_LAST && !IsGreaseTlv(t) {
        parsed := parsed.(appTlvs := parsed.appTlvs + [(t, val)]);
      } else {
        parsed := parsed.(ignored := parsed.ignored + [t]);
      }
      read := read + [(t, val)];
    }
    assert data[pos..end] == [];
    NoTlvs();
    assert read + [] == read;
    return Ok((parsed, total));
  }

  // ---------------------------------------------------------------- exactness

  lemma {:induction false} OwnTlvs(tlvs: seq<Tlv>)
    requires ParamsEncodable(AsParams(tlvs))
    ensures TpEntries(TpsBytes(AsParams(tlvs))) == Some(tlvs)
  {
    hide TpEntries, TpsBytes;
    var ps := AsParams(tlvs);
    EntriesOfBytes(ps);
    assert EntriesOf(ps) == tlvs;
  }

  /** An encoded preamble, followed by any stream data, is accepted exactly when it is within
      the limit and its TLVs are acceptable; then it means what they say, and the data after it
      plays no part. */
  lemma PreambleRoundTrip(tlvs: seq<Tlv>, data: Bytes, limit: int)
    requires PreambleEncodable(tlvs)
    ensures PreambleSpec(PreambleBytes(tlvs) + data, limit) ==
              if |PreambleBytes(tlvs)| <= limit && Acceptable(tlvs)
              then Ok((Meaning(tlvs), |PreambleBytes(tlvs)|)) else Err(ProtocolViolation)
  {
    hide DecV, EncV, TpEntries, TpsBytes, Acceptable, Meaning;
    var body := TpsBytes(AsParams(tlvs));
    var size := EncV(|body|);
    AppendAssoc(size, body, data);
    DecodeEncode(|body|, body + data);
    assert (size + body + data)[|size|..|size| + |body|] == body;
    OwnTlvs(tlvs);
  }

  lemma ShrinksToItself(b: Bytes)
    ensures Shrinks(b, b)
  {
  }

  lemma NoParams()
    ensures AsParams([]) == [] && ParamsEncodable([]) && TpsBytes([]) == [] && Shrinks([], [])
  {
  }

  lemma OneMoreParam(e: Tlv, more: seq<Tlv>)
    requires ParamsEncodable(AsParams(more)) && IsVarint(|e.1|)
    ensures ParamsEncodable(AsParams([e] + more))
    ensures TpsBytes(AsParams([e] + more)) == ParamBytes(Opaque(e.0, e.1)) + TpsBytes(AsParams(more))
  {
    hide ParamBytes;
    assert AsParams([e] + more) == [Opaque(e.0, e.1)] + AsParams(more);
    assert ([Opaque(e.0, e.1)] + AsParams(more))[1..] == AsParams(more);
  }

  lemma {:induction false} TlvsShrink(b: Bytes)
    requires TpEntries(b).Some?
    ensures var tlvs := TpEntries(b).value;
            ParamsEncodable(AsParams(tlvs)) && Shrinks(TpsBytes(AsParams(tlvs)), b)
    decreases |b|
  {
    hide DecV, ParamBytes, TpEntries, TpsBytes, AsParams, Shrinks;
    if b == [] {
      NoTlvs();
      NoParams();
    } else {
      TlvUnfold(b);
      var (num, n) := DecV(b).value;
      var (len, m) := DecV(b[n..]).value;
      var val, rest := b[n + m..n + m + len], b[n + m + len..];
      var more := TpEntries(rest).value;
      TlvsShrink(rest);
      ShrinksToItself(val);
      ParamFieldsShrink(b, Opaque(num, val));
      OneMoreParam((num, val), more);
      ShrinksConcat(ParamBytes(Opaque(num, val)), b[..n + m + len], TpsBytes(AsParams(more)), rest);
      assert b == b[..n + m + len] + rest;
    }
  }

  /** Whatever bytes were accepted, encoding their TLVs again gives a preamble that is no longer
      and means the same. */
  lemma PreambleCanonical(data: Bytes, limit: int)
    requires PreambleSpec(data, limit).Ok?
    ensures var (len, n) := DecV(data).value; var tlvs := TpEntries(data[n..n + len]).value;
            var (parsed, total) := PreambleSpec(data, limit).value;
            && PreambleEncodable(tlvs) && Shrinks(PreambleBytes(tlvs), data[..total])
            && PreambleSpec(PreambleBytes(tlvs), limit) == Ok((parsed, |PreambleBytes(tlvs)|))
  {
    hide DecV, EncV, TpEntries, TpsBytes, Acceptable, Meaning;
    var (len, n) := DecV(data).value;
    var body := data[n..n + len];
    var tlvs := TpEntries(body).value;
    TlvsShrink(body);
    DropSlice(data, n, 0, len);
    assert data[n..][0..len] == data[n..][..len];
    Cut(data, n, len);
    ValueFieldShrinks(data, body, TpsBytes(AsParams(tlvs)));
    PreambleRoundTrip(tlvs, [], limit);
    assert PreambleBytes(tlvs) + [] == PreambleBytes(tlvs);
  }

  // ---------------------------------------------------------------- by the numbers on the wire

  /** is_grease_tlv holds of the values of grease_tlv, and of no others. */
  lemma GreaseTlv(v: int)
    ensures IsGreaseTlv(v) <==> exists n: nat :: v == 0x1F * n + 0x21
  {
    if IsGreaseTlv(v) {
      var n := (v - 0x21) / 0x1F;
      assert v == 0x1F * n + 0x21;
    }
  }

  /** A TLV type for applications. */
  ghost predicate ForApplications(t: int) {
    0x1000 <= t <= 0x3FFF && forall n: nat :: t != 0x1F * n + 0x21
  }

  lemma AppByNumber(t: vint)
    ensures IsApp(t) <==> ForApplications(t)
    ensures IsIgnored(t) <==> t != 1 && t != 2 && t != 5 && !ForApplications(t)
  {
    GreaseTlv(t);
  }

  /** TLVs that no receiver refuses: types 1, 2 and 5 at most once, a byte with four zero bits
      under 2, nothing under 5. */
  predicate Sound(tlvs: seq<Tlv>) {
    && (forall i, j :: 0 <= i < j < |tlvs| && tlvs[i].0 == tlvs[j].0 ==> tlvs[i].0 !in {1, 2, 5})
    && (forall i :: 0 <= i < |tlvs| && tlvs[i].0 == 2 ==> |tlvs[i].1| == 1 && tlvs[i].1[0] % 0x10 == 0)
    && (forall i :: 0 <= i < |tlvs| && tlvs[i].0 == 5 ==> tlvs[i].1 == [])
  }

  lemma AcceptableByNumber(tlvs: seq<Tlv>)
    ensures Acceptable(tlvs) <==> Sound(tlvs)
  {
  }

  lemma {:induction false} DeliveredTlvs(tlvs: seq<Tlv>, e: Tlv)
    ensures e in AppTlvs(tlvs) <==> e in tlvs && IsApp(e.0)
    ensures e.0 in IgnoredTypes(tlvs) <==> IsIgnored(e.0) && exists d :: d in tlvs && d.0 == e.0
  {
    hide IsApp, IsIgnored;
    if tlvs == [] {
    } else {
      DeliveredTlvs(tlvs[1..], e);
      assert tlvs == [tlvs[0]] + tlvs[1..];
      assert tlvs[0] in tlvs;
    }
  }

  /** The only TLV of a known type is the one that is found. */
  lemma {:induction false} FoundIsSent(tlvs: seq<Tlv>, t: vint, val: Bytes)
    requires Acceptable(tlvs) && IsKnown(t)
    ensures Find(tlvs, t) == Some(val) <==> (t, val) in tlvs
  {
    hide WellFormedTlv, IsKnown;
    if tlvs == [] {
    } else {
      var rest := tlvs[1..];
      assert forall i :: 0 <= i < |rest| ==> rest[i] == tlvs[i + 1];
      FoundIsSent(rest, t, val);
      assert tlvs == [tlvs[0]] + rest;
    }
  }

  lemma SamePriority(x: byte, y: byte)
    requires x % 0x10 == 0 && y % 0x10 == 0
    ensures (x / 0x20, x % 0x20 >= 0x10) == (y / 0x20, y % 0x20 >= 0x10) <==> x == y
  {
  }

  lemma PrioritySent(tlvs: seq<Tlv>, x: byte)
    requires Acceptable(tlvs)
    ensures Meaning(tlvs).priority == Some((x / 0x20, x % 0x20 >= 0x10)) && x % 0x10 == 0 <==> (2, [x]) in tlvs
  {
    hide Find, AppTlvs, IgnoredTypes, IsApp, IsIgnored;
    FindIsThere(tlvs, 2);
    FoundIsSent(tlvs, 2, [x]);
    var val := Find(tlvs, 2);
    if val.Some? {
      assert val.value == [val.value[0]] && val.value[0] % 0x10 == 0;
      if x % 0x10 == 0 {
        SamePriority(x, val.value[0]);
      }
    }
  }

  /** What each type of TLV does. The open info, the priority and the mark of a carrier come from
      types 1, 2 and 5; the application gets the types 0x1000 to 0x3FFF that are not of the form
      0x1F n + 0x21; all others are ignored. */
  lemma MeaningByNumber(tlvs: seq<Tlv>, e: Tlv)
    requires Acceptable(tlvs)
    ensures Meaning(tlvs).openInfo == Some(e.1) <==> (1, e.1) in tlvs
    ensures forall x: byte :: Meaning(tlvs).priority == Some((x / 0x20, x % 0x20 >= 0x10)) && x % 0x10 == 0 <==>
              (2, [x]) in tlvs
    ensures Meaning(tlvs).priority.Some? <==> exists d :: d in tlvs && d.0 == 2
    ensures Meaning(tlvs).pipeCarrier <==> (5, []) in tlvs
    ensures e in Meaning(tlvs).appTlvs <==> e in tlvs && ForApplications(e.0)
    ensures e.0 in Meaning(tlvs).ignored <==>
              (exists d :: d in tlvs && d.0 == e.0) && e.0 !in {1, 2, 5} && !ForApplications(e.0)
  {
    hide Find, AppTlvs, IgnoredTypes, IsApp, IsIgnored;
    AppByNumber(e.0);
    DeliveredTlvs(tlvs, e);
    FoundIsSent(tlvs, 1, e.1);
    FoundIsSent(tlvs, 5, []);
    FindIsThere(tlvs, 2);
    FindIsThere(tlvs, 5);
    forall x: byte
      ensures Meaning(tlvs).priority == Some((x / 0x20, x % 0x20 >= 0x10)) && x % 0x10 == 0 <==> (2, [x]) in tlvs
    {
      PrioritySent(tlvs, x);
    }
  }

  /** An accepted preamble, by the numbers in it: what each of its TLVs comes to. */
  lemma PreambleByNumber(data: Bytes, limit: int, e: Tlv)
    ensures PreambleSpec(data, limit).Ok? <==>
              && DecV(data).Some?
              && var (len, n) := DecV(data).value;
                 && n + len <= limit && n + len <= |data| && TpEntries(data[n..n + len]).Some?
                 && Sound(TpEntries(data[n..n + len]).value)
    ensures PreambleSpec(data, limit).Ok? ==>
              var (len, n) := DecV(data).value;
              var tlvs := TpEntries(data[n..n + len]).value;
              var (parsed, total) := PreambleSpec(data, limit).value;
              && total == n + len
              && (parsed.openInfo == Some(e.1) <==> (1, e.1) in tlvs)
              && (parsed.pipeCarrier <==> (5, []) in tlvs)
              && (e in parsed.appTlvs <==> e in tlvs && ForApplications(e.0))
              && (e.0 in parsed.ignored <==>
                    (exists d :: d in tlvs && d.0 == e.0) && e.0 !in {1, 2, 5} && !ForApplications(e.0))
  {
    hide DecV, TpEntries, Acceptable, Meaning, Sound;
    if DecV(data).Some? {
      var (len, n) := DecV(data).value;
      if n + len <= |data| && TpEntries(data[n..n + len]).Some? {
        var tlvs := TpEntries(data[n..n + len]).value;
        AcceptableByNumber(tlvs);
        if Acceptable(tlvs) {
          MeaningByNumber(tlvs, e);
        }
      }
    }
  }

  /** The bytes of TLVs: type, length and value of each, in their order. */
  function TlvLayout(tlvs: seq<Tlv>): Bytes {
    if tlvs == [] then []
    else Layout.V(tlvs[0].0) + (Layout.V(|tlvs[0].1|) + tlvs[0].1) + TlvLayout(tlvs[1..])
  }

  lemma {:induction false} TlvBytesLayout(tlvs: seq<Tlv>)
    requires ParamsEncodable(AsParams(tlvs))
    ensures TpsBytes(AsParams(tlvs)) == TlvLayout(tlvs)
  {
    hide EncV;
    if tlvs == [] {
    } else {
      assert AsParams(tlvs)[1..] == AsParams(tlvs[1..]);
      TlvBytesLayout(tlvs[1..]);
    }
  }

  /** encode_preamble: the length of the TLVs, and the TLVs. */
  lemma PreambleLayout(tlvs: seq<Tlv>)
    requires PreambleEncodable(tlvs)
    ensures PreambleBytes(tlvs) == Layout.V(|TlvLayout(tlvs)|) + TlvLayout(tlvs)
  {
    hide EncV, TlvLayout, TpsBytes;
    TlvBytesLayout(tlvs);
  }
}
