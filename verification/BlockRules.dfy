/** Which parameter blocks decode_tps accepts, by the numbers on the wire
    (tools/zmuxwire/registry.py lines 139-205, tools/zmuxwire/frames.py lines 108-219). */
module BlockRules {
  import opened Base
  import opened Varint
  import opened Registry
  import opened TransportParameters
  import opened TpOrder
  import opened Layout

  // ---------------------------------------------------------------- one entry

  predicate Forbidden(id: int) {
    id in {0x00, 0x02, 0x03, 0x0A, 0x0B, 0x0C, 0x0D, 0x0E, 0x0F, 0x10}
  }

  /** The parameters that hold one varint. */
  predicate HoldsVarint(id: int) {
    id in {0x01, 0x04, 0x05, 0x06, 0x07, 0x08, 0x09, 0x20, 0x0571_C594_29CD_0845, 0x0439_E07A, 0x2762_C7E5,
           0x17FA_1ED6, 0x0D57_78CE}
  }

  /** The parameters without a value. */
  predicate IsFlag(id: int) {
    id in {0x1D, 0x0452_8A5F, 0x31E7_139D, 0x0AF3_91ED, 0x3D27_4C5F, 0x34B4_7621}
  }

  predicate IsRegistered(id: int) {
    HoldsVarint(id) || IsFlag(id) || id in {0x1724_0207, 0x30DC_2978, 0x2785_6EF0}
  }

  /** A role: 0 or 1 alone, or 2 and eight bytes. */
  predicate IsRole(raw: Bytes) {
    DecV(raw).Some? &&
    var (code, n) := DecV(raw).value;
    ((code == 0 || code == 1) && n == |raw|) || (code == 2 && |raw| == n + 8)
  }

  /** Flags, a nonce of 16 bytes, and a locator of at most 16 behind its length. */
  predicate IsMultipath(raw: Bytes) {
    |raw| >= 18 && raw[17] <= 16 && |raw| == 18 + (raw[17] as int)
  }

  /** A positive number of lanes and a key of 16 bytes. */
  predicate IsLanes(raw: Bytes) {
    DecV(raw).Some? && DecV(raw).value.0 > 0 && |raw| == DecV(raw).value.1 + 16
  }

  predicate EntryAccepted(id: int, raw: Bytes) {
    if HoldsVarint(id) then DecV(raw).Some? && DecV(raw).value.1 == |raw|
    else if IsFlag(id) then raw == []
    else if id == 0x1724_0207 then IsRole(raw)
    else if id == 0x30DC_2978 then IsMultipath(raw)
    else if id == 0x2785_6EF0 then IsLanes(raw)
    else !Forbidden(id)
  }

  /** The parameter that an accepted entry comes back as: named when its id is registered, with
      its raw value otherwise. */
  predicate ComesBackAs(id: int, raw: Bytes, p: Param) {
    match p
    case Opaque(i, r) => !IsRegistered(id) && i == id && r == raw
    case Known(name, VarintValue(n)) =>
      IdNumber(name) == id && HoldsVarint(id) && DecV(raw).Some? && n == DecV(raw).value.0
    case Known(name, NoValue) => IdNumber(name) == id && IsFlag(id)
    case Known(name, RoleValue(role)) =>
      && name.ZmuxRole? && id == 0x1724_0207 && DecV(raw).Some?
      && (role.Initiator? <==> DecV(raw).value.0 == 0) && (role.Responder? <==> DecV(raw).value.0 == 1)
      && (role.Auto? ==> role.nonce == FromBytes(raw[DecV(raw).value.1..]))
    case Known(name, MultipathValue(flags, nonce, locator)) =>
      && name.ZmuxMultipath? && id == 0x30DC_2978 && |nonce| == 16
      && raw == Byte(flags) + nonce + Byte(|locator|) + locator
    case Known(name, LanesValue(maxLanes, laneKey)) =>
      && name.ZmuxMaxLanes? && id == 0x2785_6EF0 && DecV(raw).Some?
      && maxLanes == DecV(raw).value.0 && laneKey == raw[DecV(raw).value.1..]
  }

  lemma NumberOfName(id: int)
    ensures TpById(id).Some? <==> IsRegistered(id)
    ensures TpById(id).Some? ==>
              var name := TpById(id).value;
              && IdNumber(name) == id && (TpFormatOf(name).VarintFormat? <==> HoldsVarint(id))
              && (TpFormatOf(name).EmptyFormat? <==> IsFlag(id))
              && (TpFormatOf(name).RoleFormat? <==> name.ZmuxRole?) && (name.ZmuxRole? <==> id == 0x1724_0207)
              && (TpFormatOf(name).MultipathFormat? <==> name.ZmuxMultipath?)
              && (name.ZmuxMultipath? <==> id == 0x30DC_2978)
              && (TpFormatOf(name).LanesFormat? <==> name.ZmuxMaxLanes?) && (name.ZmuxMaxLanes? <==> id == 0x2785_6EF0)
    ensures IsProhibitedTp(id) <==> Forbidden(id)
  {
  }

  lemma NameOfNumber(name: TpName)
    ensures TpId(name) == IdNumber(name) && IsRegistered(IdNumber(name)) && TpById(IdNumber(name)) == Some(name)
  {
  }

  lemma Disjoint(id: int)
    ensures HoldsVarint(id) ==> !IsFlag(id) && id !in {0x1724_0207, 0x30DC_2978, 0x2785_6EF0}
    ensures IsFlag(id) ==> id !in {0x1724_0207, 0x30DC_2978, 0x2785_6EF0}
    ensures IsRegistered(id) ==> !Forbidden(id)
  {
  }

  lemma EntryByNumber(id: vint, raw: Bytes)
    ensures EntryDecodes((id, raw)) <==> EntryAccepted(id, raw)
    ensures EntryDecodes((id, raw)) ==> ComesBackAs(id, raw, DecodeTpValue(id, raw).value)
  {
    hide DecV, TpById, TpFormatOf, IsProhibitedTp, HoldsVarint, IsFlag, Forbidden, FromBytes;
    NumberOfName(id);
    Disjoint(id);
    if id == 0x30DC_2978 && IsMultipath(raw) {
      assert raw == [raw[0]] + raw[1..17] + [raw[17]] + raw[18..];
    }
  }

  // ---------------------------------------------------------------- the rules between entries

  /** The block has a parameter with this id. */
  predicate Has(es: seq<TpEntry>, id: int) {
    exists i :: 0 <= i < |es| && es[i].0 == id
  }

  /** The varint that the parameter with this id holds. */
  function Number(es: seq<TpEntry>, id: int, default: int): int {
    if es == [] then default
    else if es[0].0 == id && DecV(es[0].1).Some? then DecV(es[0].1).value.0
    else Number(es[1..], id, default)
  }

  /** Bounds on values, and which parameter needs which (tools/zmuxwire/frames.py lines 189-219). */
  predicate RulesHold(es: seq<TpEntry>) {
    var recordSize := Number(es, 0x0571_C594_29CD_0845, 16382);
    var preamble := Number(es, 0x0439_E07A, 1);
    && recordSize >= 16382
    && Number(es, 0x08, 0) <= 0x1000_0000_0000_0000 && Number(es, 0x09, 0) <= 0x1000_0000_0000_0000
    && (Has(es, 0x0439_E07A) ==>
          && Has(es, 0x1D) && 1 <= preamble <= recordSize - 32
          && preamble <= Number(es, 0x06, 0) && preamble <= Number(es, 0x07, 0))
    && (Has(es, 0x2762_C7E5) || Has(es, 0x17FA_1ED6) || Has(es, 0x2785_6EF0) ==>
          Has(es, 0x30DC_2978) || Has(es, 0x34B4_7621))
    && (Has(es, 0x0D57_78CE) ==> Has(es, 0x30DC_2978))
    && Number(es, 0x2762_C7E5, 1024) >= 1024 && Number(es, 0x17FA_1ED6, 0) < 0x4000 && Number(es, 0x0D57_78CE, 1) >= 1
  }

  lemma {:induction false} NumberOf(es: seq<TpEntry>, e: TpEntry, default: int)
    requires UniqueIds(es) && e in es && DecV(e.1).Some?
    ensures Number(es, e.0, default) == DecV(e.1).value.0
  {
    hide DecV;
    if es[0] == e {
    } else {
      var i :| 0 <= i < |es| && es[i] == e;
      assert es[0].0 != es[i].0;
      assert es[1..][i - 1] == e;
      NumberOf(es[1..], e, default);
    }
  }

  lemma {:induction false} NumberAbsent(es: seq<TpEntry>, id: int, default: int)
    requires !Has(es, id)
    ensures Number(es, id, default) == default
  {
    hide DecV;
    if es == [] {
    } else {
      assert es[0].0 != id;
      assert forall i :: 0 <= i < |es[1..]| ==> es[1..][i] == es[i + 1];
      NumberAbsent(es[1..], id, default);
    }
  }

  lemma NamedEntry(e: TpEntry, name: TpName)
    requires DecodeTpValue(e.0, e.1).Some? && DecodeTpValue(e.0, e.1).value.Known?
    requires DecodeTpValue(e.0, e.1).value.name == name
    ensures e.0 == IdNumber(name)
  {
    hide DecV, DecodeKnown, TpById, IdNumber;
    NumberOfName(e.0);
  }

  lemma KnownEntry(e: TpEntry, name: TpName)
    requires e.0 == IdNumber(name) && DecodeTpValue(e.0, e.1).Some?
    ensures DecodeTpValue(e.0, e.1).value.Known? && DecodeTpValue(e.0, e.1).value.name == name
  {
    hide DecV, DecodeKnown, TpById, IdNumber;
    NameOfNumber(name);
  }

  lemma VarintEntry(e: TpEntry, name: TpName)
    requires e.0 == IdNumber(name) && HoldsVarint(e.0) && EntryDecodes(e)
    ensures DecV(e.1).Some? && DecodeTpValue(e.0, e.1) == Some(Known(name, VarintValue(DecV(e.1).value.0)))
  {
    hide DecV, TpById, IdNumber, TpFormatOf, HoldsVarint, IsFlag;
    NameOfNumber(name);
    NumberOfName(e.0);
  }

  /** What the dictionary of a block holds under a name. */
  lemma DictByNumber(es: seq<TpEntry>, name: TpName, default: int)
    requires UniqueIds(es) && DecodeEntries(es).Some?
    ensures var d := TpDict(DecodeEntries(es).value);
            && (name in d <==> Has(es, IdNumber(name)))
            && (HoldsVarint(IdNumber(name)) ==>
                  IntOf(d, name, default) == Number(es, IdNumber(name), default)
                  && (name in d ==> d[name].VarintValue?))
  {
    hide DecV, TpById, TpFormatOf, IsProhibitedTp, HoldsVarint, IsFlag, Forbidden, TpDict, DecodeTpValue, DecodeEntries;
    hide IdNumber, EntryAccepted, UniqueIds;
    var d, id := TpDict(DecodeEntries(es).value), IdNumber(name);
    NameOfNumber(name);
    DecodedOneByOne(es);
    if name in d {
      Holds(es, name, d[name]);
      var e :| e in es && EntryDecodes(e) && DecodeTpValue(e.0, e.1) == Some(Known(name, d[name]));
      EntryByNumber(e.0, e.1);
      NamedEntry(e, name);
      var i :| 0 <= i < |es| && es[i] == e;
      if HoldsVarint(id) {
        VarintEntry(e, name);
        NumberOf(es, e, default);
      }
    } else {
      if Has(es, id) {
        var i :| 0 <= i < |es| && es[i].0 == id;
        assert es[i] in es && EntryDecodes(es[i]);
        KnownEntry(es[i], name);
        Holds(es, name, DecodeTpValue(es[i].0, es[i].1).value.value);
        assert false;
      }
      NumberAbsent(es, id, default);
    }
  }

  lemma NeedsOne(d: map<TpName, TpValue>, name: TpName, a: TpName, b: TpName)
    ensures NeedsOneOf(d, name, {a}) <==> (name in d ==> a in d)
    ensures NeedsOneOf(d, name, {a, b}) <==> (name in d ==> a in d || b in d)
  {
    assert a in d ==> a in d.Keys * {a} && a in d.Keys * {a, b};
    assert b in d ==> b in d.Keys * {a, b};
  }

  /** The dictionary and the entries agree about a parameter that holds a varint. */
  predicate Agree(es: seq<TpEntry>, d: map<TpName, TpValue>, name: TpName, id: int, default: int) {
    && (name in d <==> Has(es, id)) && IntOf(d, name, default) == Number(es, id, default)
    && (name in d ==> d[name].VarintValue?)
  }

  lemma SizesByNumber(es: seq<TpEntry>)
    requires UniqueIds(es) && DecodeEntries(es).Some?
    ensures var d := TpDict(DecodeEntries(es).value);
            && Agree(es, d, MaxRecordSize, 0x0571_C594_29CD_0845, 16382)
            && Agree(es, d, InitialMaxStreamsBidi, 0x08, 0)
            && Agree(es, d, InitialMaxStreamsUni, 0x09, 0)
            && Agree(es, d, ZmuxPreamble, 0x0439_E07A, 1)
            && Agree(es, d, InitialMaxStreamDataBidiRemote, 0x06, 0)
            && Agree(es, d, InitialMaxStreamDataUni, 0x07, 0)
  {
    hide TpDict, DecodeEntries, UniqueIds, Has, Number, IntOf;
    DictByNumber(es, MaxRecordSize, 16382);
    DictByNumber(es, InitialMaxStreamsBidi, 0);
    DictByNumber(es, InitialMaxStreamsUni, 0);
    DictByNumber(es, ZmuxPreamble, 1);
    DictByNumber(es, InitialMaxStreamDataBidiRemote, 0);
    DictByNumber(es, InitialMaxStreamDataUni, 0);
  }

  lemma OthersByNumber(es: seq<TpEntry>)
    requires UniqueIds(es) && DecodeEntries(es).Some?
    ensures var d := TpDict(DecodeEntries(es).value);
            && Agree(es, d, ZmuxAckThreshold, 0x2762_C7E5, 1024)
            && Agree(es, d, ZmuxMaxAckDelay, 0x17FA_1ED6, 0)
            && Agree(es, d, ZmuxResume, 0x0D57_78CE, 1)
            && (ResetStreamAtSupport in d <==> Has(es, 0x1D))
            && (ZmuxMultipath in d <==> Has(es, 0x30DC_2978))
            && (ZmuxPipeAck in d <==> Has(es, 0x34B4_7621))
            && (ZmuxMaxLanes in d <==> Has(es, 0x2785_6EF0))
  {
    hide TpDict, DecodeEntries, UniqueIds, Has, Number, IntOf;
    DictByNumber(es, ZmuxAckThreshold, 1024);
    DictByNumber(es, ZmuxMaxAckDelay, 0);
    DictByNumber(es, ZmuxResume, 1);
    DictByNumber(es, ResetStreamAtSupport, 0);
    DictByNumber(es, ZmuxMultipath, 0);
    DictByNumber(es, ZmuxPipeAck, 0);
    DictByNumber(es, ZmuxMaxLanes, 0);
  }

  lemma RulesByNumber(es: seq<TpEntry>)
    requires UniqueIds(es) && DecodeEntries(es).Some?
    ensures ValidTps(TpDict(DecodeEntries(es).value)) <==> RulesHold(es)
  {
    hide TpDict, DecodeEntries, UniqueIds, Has, Number, NeedsOneOf;
    var d := TpDict(DecodeEntries(es).value);
    NeedsOne(d, ZmuxPreamble, ResetStreamAtSupport, ResetStreamAtSupport);
    NeedsOne(d, ZmuxAckThreshold, ZmuxMultipath, ZmuxPipeAck);
    NeedsOne(d, ZmuxMaxAckDelay, ZmuxMultipath, ZmuxPipeAck);
    NeedsOne(d, ZmuxMaxLanes, ZmuxMultipath, ZmuxPipeAck);
    NeedsOne(d, ZmuxResume, ZmuxMultipath, ZmuxMultipath);
    SizesByNumber(es);
    OthersByNumber(es);
  }

  /** decode_tps accepts exactly the blocks of whole entries with distinct ids, none forbidden,
      each value of its form, that meet the rules. */
  lemma AcceptedByNumber(b: Bytes)
    ensures DecodeTpsSpec(b).Ok? <==>
              && TpEntries(b).Some? && UniqueIds(TpEntries(b).value)
              && (forall e :: e in TpEntries(b).value ==> EntryAccepted(e.0, e.1))
              && RulesHold(TpEntries(b).value)
    ensures !DecodeTpsSpec(b).Ok? ==> DecodeTpsSpec(b) == Err(TransportParameterError)
  {
    hide TpEntries, UniqueIds, DecodeEntries, ValidTps, TpDict, RulesHold, EntryAccepted, EntryDecodes;
    if TpEntries(b).Some? {
      var es := TpEntries(b).value;
      DecodedOneByOne(es);
      forall e | e in es ensures EntryDecodes(e) <==> EntryAccepted(e.0, e.1) {
        EntryByNumber(e.0, e.1);
      }
      if UniqueIds(es) && DecodeEntries(es).Some? {
        RulesByNumber(es);
      }
    }
  }

  /** A forbidden parameter anywhere refuses the block. */
  lemma ForbiddenRefused(b: Bytes, e: TpEntry)
    requires TpEntries(b).Some? && e in TpEntries(b).value && Forbidden(e.0)
    ensures DecodeTpsSpec(b) == Err(TransportParameterError)
  {
    hide DecodeTpsSpec, TpEntries, RulesHold, UniqueIds, Forbidden;
    AcceptedByNumber(b);
    Disjoint(e.0);
  }

  /** Each parameter of an accepted block comes back from its own entry. */
  lemma DecodedByNumber(b: Bytes, i: nat)
    requires DecodeTpsSpec(b).Ok? && TpEntries(b).Some? && i < |TpEntries(b).value|
    ensures |DecodeTpsSpec(b).value| == |TpEntries(b).value|
    ensures var e := TpEntries(b).value[i]; ComesBackAs(e.0, e.1, DecodeTpsSpec(b).value[i])
  {
    hide TpEntries, UniqueIds, DecodeEntries, ValidTps, TpDict, DecodeTpValue, ComesBackAs;
    var es := TpEntries(b).value;
    DecodedOneByOne(es);
    EntryByNumber(es[i].0, es[i].1);
  }
}
