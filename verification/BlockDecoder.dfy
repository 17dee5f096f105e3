/** decode_tps as it is written: a cursor, the ids seen so far, and the checks of each entry in
    their order (tools/zmuxwire/frames.py lines 158-219). */
module BlockDecoder {
  import opened Base
  import opened Varint
  import opened Registry
  import opened TransportParameters

  // ---------------------------------------------------------------- transport parameters

  /** validate_tps. */
  method ValidateTps(params: seq<Param>) returns (r: Result<map<TpName, TpValue>>)
    ensures r.Ok? <==> ValidTps(TpDict(params))
    ensures r == if r.Ok? then Ok(TpDict(params)) else Err(TransportParameterError)
  {
    var d := map[];
    var i := 0;
    assert params[..0] == [];
    while i < |params|
      invariant 0 <= i <= |params| && d == TpDict(params[..i])
    {
      assert params[..i + 1][..i] == params[..i];
      if params[i].Known? {
        d := d[params[i].name := params[i].value];
      }
      i := i + 1;
    }
    assert params[..i] == params;
    if MaxRecordSize in d && IntOf(d, MaxRecordSize, 0) < DEFAULT_MAX_RECORD_SIZE {
      return Err(TransportParameterError);
    }
    if InitialMaxStreamsBidi in d && IntOf(d, InitialMaxStreamsBidi, 0) > 0x1000_0000_0000_0000 {
      return Err(TransportParameterError);
    }
    if InitialMaxStreamsUni in d && IntOf(d, InitialMaxStreamsUni, 0) > 0x1000_0000_0000_0000 {
      return Err(TransportParameterError);
    }
    if ZmuxPreamble in d {
      var preamble := IntOf(d, ZmuxPreamble, 0);
      if ResetStreamAtSupport !in d {
        assert d.Keys * {ResetStreamAtSupport} == {};
        return Err(TransportParameterError);
      }
      assert ResetStreamAtSupport in d.Keys * {ResetStreamAtSupport};
      if preamble < 1 {
        return Err(TransportParameterError);
      }
      var ownMrs := IntOf(d, MaxRecordSize, DEFAULT_MAX_RECORD_SIZE);
      if preamble > ownMrs - MAX_PREAMBLE_TP_OVERHEAD {
        return Err(TransportParameterError);
      }
      if preamble > IntOf(d, InitialMaxStreamDataBidiRemote, 0) || preamble > IntOf(d, InitialMaxStreamDataUni, 0) {
        return Err(TransportParameterError);
      }
    }
    if ZmuxMultipath in d || ZmuxPipeAck in d {
      assert ZmuxMultipath in d ==> ZmuxMultipath in d.Keys * {ZmuxMultipath, ZmuxPipeAck};
      assert ZmuxPipeAck in d ==> ZmuxPipeAck in d.Keys * {ZmuxMultipath, ZmuxPipeAck};
    } else {
      assert d.Keys * {ZmuxMultipath, ZmuxPipeAck} == {};
      if ZmuxAckThreshold in d || ZmuxMaxAckDelay in d || ZmuxMaxLanes in d {
        return Err(TransportParameterError);
      }
    }
    if ZmuxResume in d && ZmuxMultipath !in d {
      assert d.Keys * {ZmuxMultipath} == {};
      return Err(TransportParameterError);
    }
    assert ZmuxMultipath in d ==> ZmuxMultipath in d.Keys * {ZmuxMultipath};
    if ZmuxAckThreshold in d && IntOf(d, ZmuxAckThreshold, 0) < 1024 {
      return Err(TransportParameterError);
    }
    if ZmuxMaxAckDelay in d && IntOf(d, ZmuxMaxAckDelay, 0) >= 0x4000 {
      return Err(TransportParameterError);
    }
    if ZmuxResume in d && IntOf(d, ZmuxResume, 0) < 1 {
      return Err(TransportParameterError);
    }
    return Ok(d);
  }

  /** The entries still to be read, after those already read. */
  ghost function After(read: seq<TpEntry>, rest: Option<seq<TpEntry>>): Option<seq<TpEntry>> {
    if rest.None? then None else Some(read + rest.value)
  }

  lemma {:induction false} EntriesAppend(a: seq<TpEntry>, b: seq<TpEntry>)
    ensures DecodeEntries(a + b) ==
              if DecodeEntries(a).None? || DecodeEntries(b).None? then None
              else Some(DecodeEntries(a).value + DecodeEntries(b).value)
  {
    hide DecodeTpValue;
    if a == [] {
      assert a + b == b;
      if DecodeEntries(b).Some? {
        assert [] + DecodeEntries(b).value == DecodeEntries(b).value;
      }
    } else {
      assert (a + b)[1..] == a[1..] + b;
      EntriesAppend(a[1..], b);
      if DecodeEntries(a).Some? && DecodeEntries(b).Some? {
        var p := DecodeTpValue(a[0].0, a[0].1).value;
        assert [p] + (DecodeEntries(a[1..]).value + DecodeEntries(b).value)
            == [p] + DecodeEntries(a[1..]).value + DecodeEntries(b).value;
      }
    }
  }

  /** Entries that cannot be part of an accepted block, whatever follows them. */
  lemma {:induction false} BadPrefix(read: seq<TpEntry>, rest: seq<TpEntry>)
    requires DecodeEntries(read).None? || !UniqueIds(read)
    ensures DecodeBlock(Some(read + rest)) == Err(TransportParameterError)
  {
    if !UniqueIds(read) {
      var i, j :| 0 <= i < j < |read| && read[i].0 == read[j].0;
      assert (read + rest)[i].0 == (read + rest)[j].0;
    } else {
      EntriesAppend(read, rest);
    }
  }

  lemma NothingToRead()
    ensures DecV([]).None?
  {
  }

  /** The first half of a round of the loop of decode_tps: one id, length and raw value. */
  method ReadEntry(buf: Bytes, start: nat) returns (r: Result<TpEntry>, pos: nat)
    requires start < |buf|
    ensures r.Err? ==> r.code == TransportParameterError && TpEntries(buf[start..]).None?
    ensures r.Ok? ==> start < pos <= |buf|
                      && TpEntries(buf[start..]) == After([r.value], TpEntries(buf[pos..]))
  {
    hide DecV;
    ghost var b := buf[start..];
    var num, p1, w1 := DecodeVarint(buf, start, TransportParameterError);
    pos := p1;
    if num.Err? {
      return Err(num.code), pos;
    }
    var len, p2, w2 := DecodeVarint(buf, pos, TransportParameterError);
    assert p1 < |buf| ==> buf[p1..] == b[w1..];
    assert p1 == |buf| ==> b[w1..] == [];
    if len.Err? {
      NothingToRead();
      return Err(len.code), pos;
    }
    pos := p2;
    if pos + len.value > |buf| {
      return Err(TransportParameterError), pos;
    }
    var raw := buf[pos..pos + len.value];
    pos := pos + len.value;
    assert raw == b[w1 + w2..w1 + w2 + len.value];
    assert buf[pos..] == b[w1 + w2 + len.value..];
    return Ok((num.value, raw)), pos;
  }

  lemma NothingReadYet(all: Option<seq<TpEntry>>)
    ensures After([], all) == all && DecodeEntries([]) == Some([])
  {
    if all.Some? {
      assert [] + all.value == all.value;
    }
  }

  lemma AllRead(read: seq<TpEntry>, tail: Bytes, all: Option<seq<TpEntry>>)
    requires tail == [] && all == After(read, TpEntries(tail))
    ensures all == Some(read)
  {
    assert read + [] == read;
  }

  lemma BlockOfEntries(read: seq<TpEntry>, out: seq<Param>)
    requires UniqueIds(read) && DecodeEntries(read) == Some(out)
    ensures DecodeBlock(Some(read)) == if ValidTps(TpDict(out)) then Ok(out) else Err(TransportParameterError)
  {
  }

  /** A block is refused as soon as its entries so far cannot be accepted. */
  lemma Refused(read: seq<TpEntry>, rest: Option<seq<TpEntry>>)
    ensures rest.None? || DecodeEntries(read).None? || !UniqueIds(read) ==>
              DecodeBlock(After(read, rest)) == Err(TransportParameterError)
  {
    if rest.Some? && (DecodeEntries(read).None? || !UniqueIds(read)) {
      BadPrefix(read, rest.value);
    }
  }

  lemma OneEntry(e: TpEntry)
    ensures DecodeEntries([e]) ==
              if IsProhibitedTp(e.0) || DecodeTpValue(e.0, e.1).None? then None
              else Some([DecodeTpValue(e.0, e.1).value])
  {
    hide DecodeTpValue;
    assert [e][1..] == [];
    assert DecodeEntries([]) == Some([]);
    var p := DecodeTpValue(e.0, e.1);
    assert p.Some? ==> [p.value] + [] == [p.value];
  }

  lemma EntryRead(read: seq<TpEntry>, out: seq<Param>, num: vint, raw: Bytes, rest: Option<seq<TpEntry>>)
    requires UniqueIds(read) && DecodeEntries(read) == Some(out)
    ensures After(read, After([(num, raw)], rest)) == After(read + [(num, raw)], rest)
    ensures (forall e | e in read :: e.0 != num) ==> UniqueIds(read + [(num, raw)])
    ensures DecodeEntries(read + [(num, raw)]) ==
              if IsProhibitedTp(num) || DecodeTpValue(num, raw).None? then None
              else Some(out + [DecodeTpValue(num, raw).value])
  {
    hide DecodeTpValue;
    if rest.Some? {
      assert read + ([(num, raw)] + rest.value) == read + [(num, raw)] + rest.value;
    }
    EntriesAppend(read, [(num, raw)]);
    OneEntry((num, raw));
  }

  lemma Repeated(read: seq<TpEntry>, num: vint, raw: Bytes)
    requires num in set e | e in read :: e.0
    ensures !UniqueIds(read + [(num, raw)])
  {
    var e :| e in read && e.0 == num;
    var i :| 0 <= i < |read| && read[i] == e;
    assert (read + [(num, raw)])[i].0 == (read + [(num, raw)])[|read|].0;
  }

  /** decode_tps. */
  method DecodeTps(buf: Bytes) returns (r: Result<seq<Param>>)
    ensures r == DecodeTpsSpec(buf)
  {
    hide DecV, DecodeTpValue, ValidTps, TpDict, TpEntries, DecodeEntries, DecodeBlock;
    var pos := 0;
    var out: seq<Param> := [];
    var seen: set<int> := {};
    ghost var read: seq<TpEntry> := [];
    assert buf[0..] == buf;
    NothingReadYet(TpEntries(buf));
    while pos < |buf|
      invariant 0 <= pos <= |buf|
      invariant TpEntries(buf) == After(read, TpEntries(buf[pos..]))
      invariant seen == set e | e in read :: e.0
      invariant UniqueIds(read) && DecodeEntries(read) == Some(out)
    {
      ghost var rest := TpEntries(buf[pos..]);
      var entry, next := ReadEntry(buf, pos);
      if entry.Err? {
        Refused(read, None);
        return Err(entry.code);
      }
      pos := next;
      var (num, raw) := entry.value;
      EntryRead(read, out, num, raw, TpEntries(buf[pos..]));
      Refused(read + [(num, raw)], TpEntries(buf[pos..]));
      if num in seen {
        Repeated(read, num, raw);
        return Err(TransportParameterError);
      }
      seen := seen + {num};
      if IsProhibitedTp(num) {
        return Err(TransportParameterError);
      }
      var p := DecodeTpValue(num, raw);
      if p.None? {
        return Err(TransportParameterError);
      }
      out := out + [p.value];
      read := read + [(num, raw)];
    }
    AllRead(read, buf[pos..], TpEntries(buf));
    var d := ValidateTps(out);
    BlockOfEntries(read, out);
    if d.Err? {
      return Err(d.code);
    }
    return Ok(out);
  }
}
