/** The transport-parameter block: values, entries, the rules between parameters
    (tools/zmuxwire/frames.py lines 62-219). */
module TransportParameters {
  import opened Base
  import opened Varint
  import opened Registry

  datatype Role = Initiator | Responder | Auto(nonce: int)

  datatype TpValue =
    | VarintValue(v: int)
    | NoValue
    | RoleValue(role: Role)
    | MultipathValue(flags: int, nonce: Bytes, locator: Bytes)
    | LanesValue(maxLanes: int, laneKey: Bytes)

  /** A parameter under its registered name, or an unregistered one with its raw value. */
  datatype Param = Known(name: TpName, value: TpValue) | Opaque(id: int, raw: Bytes)

  function ParamId(p: Param): int {
    match p
    case Known(name, _) => TpId(name)
    case Opaque(id, _) => id
  }

  // ---------------------------------------------------------------- one value

  /** encode_tp_value accepts the value for this parameter. */
  predicate ValueEncodable(name: TpName, value: TpValue) {
    match TpFormatOf(name)
    case VarintFormat => value.VarintValue? && IsVarint(value.v)
    case EmptyFormat => true
    case RoleFormat => value.RoleValue? && (value.role.Auto? ==> 0 <= value.role.nonce < Pow256(8))
    case MultipathFormat =>
      value.MultipathValue? && 0 <= value.flags < 256 && |value.nonce| == 16 && |value.locator| < 256
    case LanesFormat =>
      value.LanesValue? && IsVarint(value.maxLanes) && |value.laneKey| == LANE_KEY_BYTES
  }

  function RoleBytes(role: Role): Bytes
    requires role.Auto? ==> 0 <= role.nonce
  {
    match role
    case Initiator => EncV(0)
    case Responder => EncV(1)
    case Auto(nonce) => EncV(2) + ToBytes(nonce, 8)
  }

  function ValueBytes(name: TpName, value: TpValue): Bytes
    requires ValueEncodable(name, value)
  {
    match TpFormatOf(name)
    case VarintFormat => EncV(value.v)
    case EmptyFormat => []
    case RoleFormat => RoleBytes(value.role)
    case MultipathFormat => [value.flags] + value.nonce + [|value.locator|] + value.locator
    case LanesFormat => EncV(value.maxLanes) + value.laneKey
  }

  predicate ParamEncodable(p: Param) {
    match p
    case Known(name, value) => ValueEncodable(name, value)
    case Opaque(id, raw) => IsVarint(id) && IsVarint(|raw|)
  }

  function ParamValue(p: Param): (b: Bytes)
    requires ParamEncodable(p)
    ensures IsVarint(|b|)
  {
    match p
    case Known(name, value) => ValueBytes(name, value)
    case Opaque(_, raw) => raw
  }

  function DecodeRole(raw: Bytes): Option<Role> {
    var (code, pos) :- DecV(raw);
    if code == 0 && pos == |raw| then Some(Initiator)
    else if code == 1 && pos == |raw| then Some(Responder)
    else if code == 2 && |raw| - pos == 8 then Some(Auto(FromBytes(raw[pos..])))
    else None
  }

  function DecodeKnown(name: TpName, raw: Bytes): Option<TpValue> {
    match TpFormatOf(name)
    case VarintFormat =>
      var (v, pos) :- DecV(raw);
      if pos == |raw| then Some(VarintValue(v)) else None
    case EmptyFormat => if raw == [] then Some(NoValue) else None
    case RoleFormat =>
      var role :- DecodeRole(raw);
      Some(RoleValue(role))
    case MultipathFormat =>
      if |raw| < 18 || raw[17] > MAX_LOCATOR_BYTES || |raw| != 18 + (raw[17] as int) then None
      else Some(MultipathValue(raw[0], raw[1..17], raw[18..]))
    case LanesFormat =>
      var (n, pos) :- DecV(raw);
      if |raw| - pos == LANE_KEY_BYTES && n != 0 then Some(LanesValue(n, raw[pos..])) else None
  }

  /** decode_tp_value: None stands for TRANSPORT_PARAMETER_ERROR. */
  function DecodeTpValue(num: vint, raw: Bytes): Option<Param> {
    match TpById(num)
    case None => Some(Opaque(num, raw))
    case Some(name) =>
      var value :- DecodeKnown(name, raw);
      Some(Known(name, value))
  }

  /** What the decoder can return for one parameter of an accepted block. */
  function ParamWellFormed(p: Param): (r: bool)
    ensures r ==> ParamEncodable(p)
  {
    ParamEncodable(p) &&
    match p
    case Opaque(id, _) => TpById(id).None? && !IsProhibitedTp(id)
    case Known(name, value) =>
      match TpFormatOf(name)
      case EmptyFormat => value.NoValue?
      case MultipathFormat => |value.locator| <= MAX_LOCATOR_BYTES
      case LanesFormat => value.maxLanes > 0
      case _ => true
  }

  lemma RoleRoundTrip(role: Role)
    requires role.Auto? ==> 0 <= role.nonce < Pow256(8)
    ensures DecodeRole(RoleBytes(role)) == Some(role)
  {
    hide EncV, DecV, ToBytes, FromBytes;
    match role
    case Initiator => DecodeEncode(0, []); assert EncV(0) + [] == EncV(0);
    case Responder => DecodeEncode(1, []); assert EncV(1) + [] == EncV(1);
    case Auto(nonce) =>
      DecodeEncode(2, ToBytes(nonce, 8));
      assert RoleBytes(role)[|EncV(2)|..] == ToBytes(nonce, 8);
      FromToBytes(nonce, 8);
  }

  lemma ValueRoundTrip(p: Param)
    requires ParamWellFormed(p)
    ensures DecodeTpValue(ParamId(p), ParamValue(p)) == Some(p)
  {
    hide EncV, DecV, DecodeRole, RoleBytes;
    match p
    case Opaque(_, _) =>
    case Known(name, value) =>
      TpTable(TpId(name), name);
      var raw := ParamValue(p);
      match TpFormatOf(name)
      case VarintFormat =>
        DecodeEncode(value.v, []);
        assert EncV(value.v) + [] == raw;
      case EmptyFormat =>
      case RoleFormat => RoleRoundTrip(value.role);
      case MultipathFormat =>
        assert raw[1..17] == value.nonce && raw[18..] == value.locator;
      case LanesFormat =>
        DecodeEncode(value.maxLanes, value.laneKey);
        assert raw[|EncV(value.maxLanes)|..] == value.laneKey;
  }

  lemma RoleShrinks(raw: Bytes)
    requires DecodeRole(raw).Some?
    ensures var role := DecodeRole(raw).value;
            (role.Auto? ==> 0 <= role.nonce < Pow256(8)) && Shrinks(RoleBytes(role), raw)
  {
    hide EncV, DecV, ToBytes, FromBytes;
    var (code, pos) := DecV(raw).value;
    DecodeIsEncode(raw);
    assert raw == raw[..pos] + raw[pos..];
    if code == 2 {
      ToFromBytes(raw[pos..]);
      ShrinksConcat(EncV(2), raw[..pos], raw[pos..], raw[pos..]);
    }
  }

  /** A decoded parameter is well formed, keeps its id, and its encoding is a canonical form
      of the raw value. */
  lemma ValueShrinks(num: vint, raw: Bytes)
    requires DecodeTpValue(num, raw).Some? && !IsProhibitedTp(num) && IsVarint(|raw|)
    ensures var p := DecodeTpValue(num, raw).value;
            ParamWellFormed(p) && ParamId(p) == num && Shrinks(ParamValue(p), raw)
  {
    hide EncV, DecV, DecodeRole, RoleBytes;
    var p := DecodeTpValue(num, raw).value;
    if p.Known? {
      TpTable(num, p.name);
      match TpFormatOf(p.name)
      case VarintFormat => DecodeIsEncode(raw); assert raw[..|raw|] == raw;
      case EmptyFormat =>
      case RoleFormat => RoleShrinks(raw);
      case MultipathFormat => assert ParamValue(p) == raw;
      case LanesFormat =>
        var (n, pos) := DecV(raw).value;
        DecodeIsEncode(raw);
        assert raw == raw[..pos] + raw[pos..];
        ShrinksConcat(EncV(n), raw[..pos], raw[pos..], raw[pos..]);
    }
  }

  // ---------------------------------------------------------------- the rules between parameters

  /** tp_dict: the registered parameters by name; a later entry replaces an earlier one. */
  function TpDict(ps: seq<Param>): map<TpName, TpValue> {
    if ps == [] then map[]
    else
      var d := TpDict(ps[..|ps| - 1]);
      var p := ps[|ps| - 1];
      if p.Known? then d[p.name := p.value] else d
  }

  /** The integer a dictionary holds under `name`, or the default when it is absent. */
  function IntOf(d: map<TpName, TpValue>, name: TpName, default: int): int {
    if name in d && d[name].VarintValue? then d[name].v else default
  }

  predicate AtLeast(d: map<TpName, TpValue>, name: TpName, least: int) {
    name in d ==> IntOf(d, name, 0) >= least
  }

  predicate AtMost(d: map<TpName, TpValue>, name: TpName, most: int) {
    name in d ==> IntOf(d, name, 0) <= most
  }

  predicate NeedsOneOf(d: map<TpName, TpValue>, name: TpName, others: set<TpName>) {
    name in d ==> d.Keys * others != {}
  }

  /** The value and dependency rules that validate_tps enforces. */
  predicate ValidTps(d: map<TpName, TpValue>) {
    && AtLeast(d, MaxRecordSize, DEFAULT_MAX_RECORD_SIZE)
    && AtMost(d, InitialMaxStreamsBidi, 0x1000_0000_0000_0000)
    && AtMost(d, InitialMaxStreamsUni, 0x1000_0000_0000_0000)
    && NeedsOneOf(d, ZmuxPreamble, {ResetStreamAtSupport})
    && AtLeast(d, ZmuxPreamble, 1)
    && AtMost(d, ZmuxPreamble, IntOf(d, MaxRecordSize, DEFAULT_MAX_RECORD_SIZE) - MAX_PREAMBLE_TP_OVERHEAD)
    && AtMost(d, ZmuxPreamble, IntOf(d, InitialMaxStreamDataBidiRemote, 0))
    && AtMost(d, ZmuxPreamble, IntOf(d, InitialMaxStreamDataUni, 0))
    && NeedsOneOf(d, ZmuxAckThreshold, {ZmuxMultipath, ZmuxPipeAck})
    && NeedsOneOf(d, ZmuxMaxAckDelay, {ZmuxMultipath, ZmuxPipeAck})
    && NeedsOneOf(d, ZmuxMaxLanes, {ZmuxMultipath, ZmuxPipeAck})
    && NeedsOneOf(d, ZmuxResume, {ZmuxMultipath})
    && AtLeast(d, ZmuxAckThreshold, 1024)
    && AtMost(d, ZmuxMaxAckDelay, 0x3FFF)
    && AtLeast(d, ZmuxResume, 1)
  }

  // ---------------------------------------------------------------- the block

  type TpEntry = (vint, Bytes)

  /** The (id, raw value) entries of a block; None when it is truncated. */
  function TpEntries(b: Bytes): Option<seq<TpEntry>> {
    if b == [] then Some([])
    else
      var (num, n) :- DecV(b);
      var (len, m) :- DecV(b[n..]);
      if |b| < n + m + len then None
      else
        var rest :- TpEntries(b[n + m + len..]);
        Some([(num, b[n + m..n + m + len])] + rest)
  }

  predicate UniqueIds(es: seq<TpEntry>) {
    forall i, j :: 0 <= i < j < |es| ==> es[i].0 != es[j].0
  }

  /** Each entry decoded on its own; None when one of them is prohibited or malformed. */
  function DecodeEntries(es: seq<TpEntry>): (r: Option<seq<Param>>)
    ensures r.Some? ==> |r.value| == |es|
  {
    if es == [] then Some([])
    else if IsProhibitedTp(es[0].0) then None
    else
      var p :- DecodeTpValue(es[0].0, es[0].1);
      var rest :- DecodeEntries(es[1..]);
      Some([p] + rest)
  }

  /** What a block of these entries decodes to. Every error has the same code. */
  function DecodeBlock(es: Option<seq<TpEntry>>): Result<seq<Param>> {
    if es.None? then Err(TransportParameterError)
    else
      var ps := DecodeEntries(es.value);
      if ps.None? || !UniqueIds(es.value) || !ValidTps(TpDict(ps.value))
      then Err(TransportParameterError) else Ok(ps.value)
  }

  function DecodeTpsSpec(b: Bytes): Result<seq<Param>> {
    DecodeBlock(TpEntries(b))
  }

  predicate ParamsEncodable(ps: seq<Param>) {
    forall i :: 0 <= i < |ps| ==> ParamEncodable(ps[i])
  }

  function ParamBytes(p: Param): (b: Bytes)
    requires ParamEncodable(p)
    ensures |b| >= 2
  {
    EncV(ParamId(p)) + (EncV(|ParamValue(p)|) + ParamValue(p))
  }

  function TpsBytes(ps: seq<Param>): Bytes
    requires ParamsEncodable(ps)
  {
    if ps == [] then [] else ParamBytes(ps[0]) + TpsBytes(ps[1..])
  }

  function TpsWellFormed(ps: seq<Param>): (r: bool)
    ensures r ==> ParamsEncodable(ps)
  {
    && (forall i :: 0 <= i < |ps| ==> ParamWellFormed(ps[i]))
    && (forall i, j :: 0 <= i < j < |ps| ==> ParamId(ps[i]) != ParamId(ps[j]))
    && ValidTps(TpDict(ps))
  }

  /** The (id, raw value) entries that the encoder writes for a list of parameters. */
  function EntriesOf(ps: seq<Param>): (es: seq<TpEntry>)
    requires ParamsEncodable(ps)
    ensures |es| == |ps|
    ensures forall i :: 0 <= i < |ps| ==> es[i] == (ParamId(ps[i]), ParamValue(ps[i]))
  {
    if ps == [] then [] else [(ParamId(ps[0]), ParamValue(ps[0]))] + EntriesOf(ps[1..])
  }

  lemma {:induction false} EntriesOfBytes(ps: seq<Param>)
    requires ParamsEncodable(ps)
    ensures TpEntries(TpsBytes(ps)) == Some(EntriesOf(ps))
  {
    hide EncV, DecV, ParamValue;
    if ps == [] {
    } else {
      var p, rest := ps[0], TpsBytes(ps[1..]);
      var num, len, val := EncV(ParamId(p)), EncV(|ParamValue(p)|), ParamValue(p);
      var b := TpsBytes(ps);
      assert b == num + (len + (val + rest));
      DecodeEncode(ParamId(p), len + (val + rest));
      assert b[|num|..] == len + (val + rest);
      DecodeEncode(|val|, val + rest);
      assert b[|num| + |len|..|num| + |len| + |val|] == val;
      assert b[|num| + |len| + |val|..] == rest;
      EntriesOfBytes(ps[1..]);
    }
  }

  lemma NotProhibited(p: Param)
    requires ParamWellFormed(p)
    ensures !IsProhibitedTp(ParamId(p))
  {
    if p.Known? {
      TpTable(ParamId(p), p.name);
    }
  }

  lemma {:induction false} DecodeOwnEntries(ps: seq<Param>)
    requires forall i :: 0 <= i < |ps| ==> ParamWellFormed(ps[i])
    ensures ParamsEncodable(ps) && DecodeEntries(EntriesOf(ps)) == Some(ps)
  {
    hide DecodeTpValue, ParamValue, ParamWellFormed, ParamId, ParamEncodable;
    if ps == [] {
    } else {
      ValueRoundTrip(ps[0]);
      NotProhibited(ps[0]);
      DecodeOwnEntries(ps[1..]);
      var es, rest := EntriesOf(ps), EntriesOf(ps[1..]);
      assert es[0] == (ParamId(ps[0]), ParamValue(ps[0])) && es[1..] == rest;
      assert ps == [ps[0]] + ps[1..];
    }
  }

  /** A well-formed block decodes to exactly the parameters that were encoded. */
  lemma TpsRoundTrip(ps: seq<Param>)
    requires TpsWellFormed(ps)
    ensures DecodeTpsSpec(TpsBytes(ps)) == Ok(ps)
  {
    EntriesOfBytes(ps);
    DecodeOwnEntries(ps);
  }

  /** A shorter value also has a length field that is no longer. */
  lemma ValueFieldShrinks(b: Bytes, val: Bytes, canonical: Bytes)
    requires DecV(b).Some? && Shrinks(canonical, val)
    requires var (len, m) := DecV(b).value; |b| >= m + len && val == b[m..m + len]
    ensures var (len, m) := DecV(b).value;
            Shrinks(EncV(|canonical|) + canonical, b[..m + len])
  {
    hide EncV, DecV;
    var (len, m) := DecV(b).value;
    DecodeIsEncode(b);
    assert VarintLen(|canonical|) <= VarintLen(len);
    assert b[..m + len] == b[..m] + val;
    if |canonical| == |val| {
      ShrinksConcat(EncV(len), b[..m], canonical, val);
    }
  }

  lemma ParamFieldsShrink(b: Bytes, p: Param)
    requires DecV(b).Some? && DecV(b[DecV(b).value.1..]).Some?
    requires var (num, n) := DecV(b).value; var (len, m) := DecV(b[n..]).value;
             |b| >= n + m + len && ParamEncodable(p) && ParamId(p) == num
             && Shrinks(ParamValue(p), b[n + m..n + m + len])
    ensures var (num, n) := DecV(b).value; var (len, m) := DecV(b[n..]).value;
            Shrinks(ParamBytes(p), b[..n + m + len])
  {
    hide EncV, DecV, ParamValue, ParamEncodable, ParamId;
    var (num, n) := DecV(b).value;
    var (len, m) := DecV(b[n..]).value;
    DecodeIsEncode(b);
    DropSlice(b, n, m, m + len);
    ValueFieldShrinks(b[n..], b[n + m..n + m + len], ParamValue(p));
    ShrinksConcat(EncV(num), b[..n], EncV(|ParamValue(p)|) + ParamValue(p), b[n..][..m + len]);
    Cut(b, n, m + len);
  }

  lemma {:induction false} TpEntriesShrink(b: Bytes)
    requires TpEntries(b).Some? && DecodeEntries(TpEntries(b).value).Some?
    ensures var es := TpEntries(b).value; var ps := DecodeEntries(es).value;
            && (forall i :: 0 <= i < |ps| ==> ParamWellFormed(ps[i]) && ParamId(ps[i]) == es[i].0)
            && ParamsEncodable(ps) && Shrinks(TpsBytes(ps), b)
    decreases |b|
  {
    hide EncV, DecV, ParamValue, ParamWellFormed, DecodeTpValue, ParamBytes;
    if b != [] {
      var (num, n) := DecV(b).value;
      var (len, m) := DecV(b[n..]).value;
      var val, rest := b[n + m..n + m + len], b[n + m + len..];
      var es, ps := TpEntries(b).value, DecodeEntries(TpEntries(b).value).value;
      assert es[1..] == TpEntries(rest).value;
      TpEntriesShrink(rest);
      ValueShrinks(num, val);
      assert ps[1..] == DecodeEntries(es[1..]).value;
      ParamFieldsShrink(b, ps[0]);
      ShrinksConcat(ParamBytes(ps[0]), b[..n + m + len], TpsBytes(ps[1..]), rest);
      assert b == b[..n + m + len] + rest;
    }
  }

  /** Whatever bytes an accepted block had, its parameters are well formed and encode to a
      canonical form of the block. */
  lemma TpsShrink(b: Bytes)
    requires DecodeTpsSpec(b).Ok?
    ensures var ps := DecodeTpsSpec(b).value; TpsWellFormed(ps) && Shrinks(TpsBytes(ps), b)
  {
    hide DecV, ParamWellFormed;
    TpEntriesShrink(b);
  }
}
