/** The branches of decode_frame for PRIORITY_UPDATE, PIPE_JOIN, PIPE_ACK and PIPE_LANE
    (tools/zmuxwire/frames.py lines 450-504). */
module PipeDecoder {
  import opened Base
  import opened Varint
  import opened Registry
  import opened Fields
  import opened Frames
  import opened BodyReader

  lemma BuildPriority(code: vint, id: vint, seqno: vint, b: byte)
    ensures Build(PRIORITY_UPDATE, code, FCons(FVarint(id), FCons(FVarint(seqno), FCons(FByte(b), FNil)))) ==
              if b % 16 != 0 then Err(FrameEncodingError)
              else Ok(PriorityUpdate(id, seqno, b / 32, b % 32 >= 16))
  {
  }

  method DecodePriority(code: vint, buf: Bytes, start: nat, end: nat) returns (r: Result<Frame>, pos: nat)
    requires end <= |buf|
    ensures Decodes(r, pos, PRIORITY_UPDATE, code, buf, start, end)
  {
    hide Parse, Slice, Build, DecV;
    var id, seqno, b;
    ghost var rest;
    id, pos, rest :- ReadV(buf, start, end, ShapeOf(PRIORITY_UPDATE, code));
    seqno, pos, rest :- ReadV(buf, pos, end, rest);
    b, pos, rest :- ReadByte(buf, pos, end, rest);
    EndParse(Slice(buf, pos, end));
    BuildPriority(code, id, seqno, b);
    if b % 16 != 0 {
      return Err(FrameEncodingError), pos;
    }
    return Ok(PriorityUpdate(id, seqno, b / 32, b % 32 >= 16)), pos;
  }

  /** The first field is a locator of a length that a PIPE_JOIN must not have. */
  ghost predicate BadLocator(fs: FieldList) {
    fs.FCons? && fs.head.FByteBytes? && !(1 <= |fs.head.bs| <= MAX_LOCATOR_BYTES)
  }

  lemma ParseByteBytes(b: Bytes, tail: Shape)
    ensures Parse(Then(KByteBytes, tail), b) ==
              if b == [] || |b| - 1 < b[0] then None
              else Prepend(FByteBytes(b[1..1 + (b[0] as nat)]), 1 + (b[0] as nat), Parse(tail, b[1 + (b[0] as nat)..]))
  {
  }

  /** The locator of a PIPE_JOIN: its one-byte length, checked before it is used. */
  method ReadLocator(buf: Bytes, start: nat, end: nat, ghost shape: Shape)
    returns (r: Result<Bytes>, pos: nat, ghost rest: Shape)
    requires end <= |buf| && shape.Then? && shape.head == KByteBytes
    ensures rest == shape.tail
    ensures r.Err? ==> r.code == FrameEncodingError
    ensures var parsed := Parse(shape, Slice(buf, start, end));
            r.Err? && parsed.Some? ==> BadLocator(parsed.value.0)
    ensures r.Ok? ==> start < pos <= end && pos - start == 1 + |r.value| && 1 <= |r.value| <= MAX_LOCATOR_BYTES
    ensures r.Ok? ==> Parse(shape, Slice(buf, start, end)) ==
                      Prepend(FByteBytes(r.value), pos - start, Parse(rest, Slice(buf, pos, end)))
  {
    hide Parse;
    rest := shape.tail;
    ParseByteBytes(Slice(buf, start, end), rest);
    var len;
    len, pos :- ReadBytes(buf, start, end, 1);
    var ln: nat := len[0];
    if ln < 1 || ln > MAX_LOCATOR_BYTES {
      return Err(FrameEncodingError), pos, rest;
    }
    r, pos := ReadBytes(buf, pos, end, ln);
    if r.Ok? {
      SliceOfSlice(buf, start, end, 1, 1 + ln);
      SliceOfSlice(buf, start, end, 1 + ln, end - start);
    }
  }

  lemma BadLocatorFails(code: vint, b: Bytes)
    requires Parse(JoinShape(), b).Some? && BadLocator(Parse(JoinShape(), b).value.0)
    ensures DecodeBody(PIPE_JOIN, code, b) == Err(FrameEncodingError)
  {
    hide Parse;
  }

  lemma BuildJoinFields(code: vint, locator: Bytes, pipe: vint, flags: byte, fateGroup: vint, priority: vint,
                        token: Bytes)
    ensures Build(PIPE_JOIN, code, FCons(FByteBytes(locator), FCons(FVarint(pipe), FCons(FByte(flags),
                  FCons(FVarint(fateGroup), FCons(FVarint(priority), FCons(FFixed(token), FNil))))))) ==
              BuildJoin(locator, pipe, flags, fateGroup, priority, token)
  {
  }

  /** The direction and flag bits of a PIPE_JOIN; None for an invalid direction or a reserved bit. */
  function JoinFlagBits(flags: byte): Option<(Direction, bool, bool)> {
    var d := flags % 4;
    if d == 3 || flags >= 0x10 then None
    else Some((if d == 0 then Up else if d == 1 then Down else Bidi, flags % 8 >= 4, flags % 16 >= 8))
  }

  /** A flags byte that is refused makes the body fail, whatever the fields after it are. */
  lemma BadFlags(code: vint, b: Bytes, locator: Bytes, n0: nat, pipe: vint, n1: nat, flags: byte, n2: nat,
                 more: Bytes)
    requires JoinFlagBits(flags).None?
    requires Parse(JoinShape(), b) == Prepend(FByteBytes(locator), n0, Prepend(FVarint(pipe), n1,
               Prepend(FByte(flags), n2, Parse(JoinShape().tail.tail.tail, more))))
    ensures DecodeBody(PIPE_JOIN, code, b) == Err(FrameEncodingError)
  {
    hide Parse;
  }

  lemma BuiltJoin(locator: Bytes, pipe: vint, flags: byte, fateGroup: vint, priority: vint, token: Bytes)
    requires 1 <= |locator| <= MAX_LOCATOR_BYTES && JoinFlagBits(flags).Some?
    ensures var (direction, carrierBound, standby) := JoinFlagBits(flags).value;
            BuildJoin(locator, pipe, flags, fateGroup, priority, token) ==
              Ok(PipeJoin(Join(locator, pipe, direction, carrierBound, standby, fateGroup, priority, token)))
  {
  }

  /** The PIPE_JOIN branch. The check of the frame's length against 64 bytes is there, and the
      postcondition holds because it never fires. */
  method DecodeJoin(code: vint, buf: Bytes, frameStart: nat, start: nat, end: nat)
    returns (r: Result<Frame>, pos: nat)
    requires end <= |buf| && frameStart <= start <= frameStart + 4
    ensures Decodes(r, pos, PIPE_JOIN, code, buf, start, end)
  {
    hide Parse, Slice, Build, DecV, DecodeBody, BuildJoin, JoinFlagBits, HasShape;
    Unparsed(PIPE_JOIN, code);
    ghost var b := Slice(buf, start, end);
    ghost var rest;
    r, pos := Err(FrameEncodingError), start;
    var loc, p0;
    loc, p0, rest := ReadLocator(buf, start, end, JoinShape());
    if loc.Err? {
      if Parse(JoinShape(), b).Some? {
        BadLocatorFails(code, b);
      }
      return;
    }
    var locator := loc.value;
    var pipe, p1, flags, p2, fateGroup, priority, token;
    pipe, p1, rest :- ReadV(buf, p0, end, rest);
    flags, p2, rest :- ReadByte(buf, p1, end, rest);
    var bits := JoinFlagBits(flags);
    if bits.None? {
      BadFlags(code, b, locator, p0 - start, pipe, p1 - p0, flags, p2 - p1, Slice(buf, p2, end));
      return;
    }
    pos := p2;
    fateGroup, pos, rest :- ReadV(buf, pos, end, rest);
    priority, pos, rest :- ReadV(buf, pos, end, rest);
    token, pos, rest :- ReadFixed(buf, pos, end, JOIN_TOKEN_BYTES, rest);
    EndParse(Slice(buf, pos, end));
    Parsed(PIPE_JOIN, code, b, FCons(FByteBytes(locator), FCons(FVarint(pipe), FCons(FByte(flags),
           FCons(FVarint(fateGroup), FCons(FVarint(priority), FCons(FFixed(token), FNil)))))), pos - start);
    BuildJoinFields(code, locator, pipe, flags, fateGroup, priority, token);
    BuiltJoin(locator, pipe, flags, fateGroup, priority, token);
    var (direction, carrierBound, standby) := bits.value;
    var tooLong := pos - frameStart > MAX_JOIN_FRAME_BYTES;
    r := if tooLong then Err(FrameEncodingError)
         else Ok(PipeJoin(Join(locator, pipe, direction, carrierBound, standby, fateGroup, priority, token)));
  }

  /** The entries still to be read, after those already read. */
  ghost function AfterEntries(read: seq<AckEntry>, n: nat, rest: Option<(seq<AckEntry>, nat)>)
    : Option<(seq<AckEntry>, nat)>
  {
    if rest.None? then None else Some((read + rest.value.0, n + rest.value.1))
  }

  lemma FourBytes(buf: Bytes, start: nat, pos: nat, end: nat)
    requires start <= pos <= end <= |buf|
    ensures Slice(buf, pos, end) == Slice(buf, start, end)[pos - start..]
  {
  }

  lemma ParseV(b: Bytes, tail: Shape)
    ensures Parse(Then(KVarint, tail), b) ==
              if DecV(b).None? then None
              else Prepend(FVarint(DecV(b).value.0), DecV(b).value.1, Parse(tail, b[DecV(b).value.1..]))
  {
    hide DecV;
  }

  lemma PairParses(b: Bytes)
    ensures Parse(S2(), b) ==
              if DecV(b).None? then None
              else
                var (x, n) := DecV(b).value;
                if DecV(b[n..]).None? then None
                else var (y, m) := DecV(b[n..]).value; Some((V2(x, y), n + m))
  {
    hide DecV, Parse;
    ParseV(b, S1());
    if DecV(b).Some? {
      var n := DecV(b).value.1;
      ParseV(b[n..], End);
      if DecV(b[n..]).Some? {
        EndParse(b[n..][DecV(b[n..]).value.1..]);
      }
    }
  }

  /** An entry is four varints. */
  lemma EntryIsFour(b: Bytes)
    ensures ParseEntry(b).Some? <==> Parse(S4(), b).Some?
    ensures ParseEntry(b).Some? ==>
              var (e, n) := ParseEntry(b).value; Parse(S4(), b) == Some((V4(e.pipe, e.lane, e.position, e.delay), n))
  {
    hide DecV, Parse;
    ParseV(b, S3());
    if DecV(b).Some? {
      var n0 := DecV(b).value.1;
      ParseV(b[n0..], S2());
      if DecV(b[n0..]).Some? {
        var n1 := DecV(b[n0..]).value.1;
        DropDrop(b, n0, n1);
        PairParses(b[n0 + n1..]);
        if DecV(b[n0 + n1..]).Some? {
          DropDrop(b, n0 + n1, DecV(b[n0 + n1..]).value.1);
        }
      }
    }
  }

  /** One entry: four varints, in the order of its keys. */
  method ReadEntryOfAck(buf: Bytes, start: nat, end: nat) returns (r: Result<AckEntry>, pos: nat)
    requires end <= |buf|
    ensures r.Err? ==> r.code == FrameEncodingError && ParseEntry(Slice(buf, start, end)).None?
    ensures r.Ok? ==> start + 4 <= pos <= end && EntryInRange(r.value)
    ensures r.Ok? ==> ParseEntry(Slice(buf, start, end)) == Some((r.value, pos - start))
    ensures r.Ok? ==> Slice(buf, pos, end) == Slice(buf, start, end)[pos - start..]
  {
    hide ParseEntry, Parse, Slice;
    ghost var b := Slice(buf, start, end);
    EntryIsFour(b);
    var v;
    v, pos :- ReadV4(buf, start, end);
    FourBytes(buf, start, pos, end);
    return Ok(AckEntry(v.0, v.1, v.2, v.3)), pos;
  }

  lemma EntriesUnfold(n: nat, b: Bytes)
    ensures n == 0 ==> ParseEntries(n, b) == Some(([], 0))
    ensures n > 0 && ParseEntry(b).None? ==> ParseEntries(n, b).None?
    ensures n > 0 && ParseEntry(b).Some? ==>
              var (e, k) := ParseEntry(b).value; var more := ParseEntries(n - 1, b[k..]);
              ParseEntries(n, b) == if more.None? then None else Some(([e] + more.value.0, k + more.value.1))
  {
    hide ParseEntry;
  }

  lemma OneMore(es: seq<AckEntry>, e: AckEntry)
    ensures IncreasingEntries([])
    ensures IncreasingEntries(es) && (es != [] ==> EntryBefore(es[|es| - 1], e)) ==> IncreasingEntries(es + [e])
  {
  }

  lemma NoEntriesYet(all: Option<(seq<AckEntry>, nat)>)
    ensures AfterEntries([], 0, all) == all
  {
    if all.Some? {
      assert [] + all.value.0 == all.value.0;
    }
  }

  lemma EntryStep(read: seq<AckEntry>, n: nat, e: AckEntry, k: nat, more: Option<(seq<AckEntry>, nat)>)
    ensures more.Some? ==>
              AfterEntries(read, n, Some(([e] + more.value.0, k + more.value.1))) ==
                AfterEntries(read + [e], n + k, more)
  {
    if more.Some? {
      assert read + ([e] + more.value.0) == read + [e] + more.value.0;
    }
  }

  lemma OutOfOrder(read: seq<AckEntry>, e: AckEntry, more: seq<AckEntry>)
    requires read != [] && !EntryBefore(read[|read| - 1], e)
    ensures !IncreasingEntries(read + [e] + more)
  {
    var all := read + [e] + more;
    assert all[|read| - 1] == read[|read| - 1] && all[|read|] == e;
  }

  /** The loop over the claimed number of entries. It stops at the first entry that is
      truncated or out of order; `rounds` counts the complete rounds, which the bytes before
      `end` bound whatever the claimed count is. */
  method ReadEntries(buf: Bytes, start: nat, end: nat, count: nat)
    returns (r: Result<seq<AckEntry>>, pos: nat, rounds: nat)
    requires start <= end <= |buf|
    ensures 4 * rounds <= end - start && rounds <= count
    ensures r.Err? ==> r.code == FrameEncodingError
    ensures r.Err? ==> ParseEntries(count, Slice(buf, start, end)).None? ||
                       !IncreasingEntries(ParseEntries(count, Slice(buf, start, end)).value.0)
    ensures r.Ok? ==> start <= pos <= end && IncreasingEntries(r.value) && rounds == count
    ensures r.Ok? ==> OrderedEntries(r.value)
    ensures r.Ok? ==> ParseEntries(count, Slice(buf, start, end)) == Some((r.value, pos - start))
  {
    hide ParseEntry, ParseEntries, IncreasingEntries, OrderedEntries, Slice;
    var entries: seq<AckEntry> := [];
    pos, rounds := start, 0;
    ghost var all := ParseEntries(count, Slice(buf, start, end));
    NoEntriesYet(all);
    OneMore([], AckEntry(0, 0, 0, 0));
    while rounds < count
      invariant 0 <= rounds <= count && |entries| == rounds
      invariant start <= pos <= end && 4 * rounds <= pos - start
      invariant IncreasingEntries(entries)
      invariant all == AfterEntries(entries, pos - start, ParseEntries(count - rounds, Slice(buf, pos, end)))
    {
      EntriesUnfold(count - rounds, Slice(buf, pos, end));
      var e, next := ReadEntryOfAck(buf, pos, end);
      if e.Err? {
        return Err(e.code), pos, rounds;
      }
      ghost var more := ParseEntries(count - rounds - 1, Slice(buf, next, end));
      EntryStep(entries, pos - start, e.value, next - pos, more);
      OneMore(entries, e.value);
      if entries != [] && !EntryBefore(entries[|entries| - 1], e.value) {
        if more.Some? {
          OutOfOrder(entries, e.value, more.value.0);
        }
        return Err(FrameEncodingError), next, rounds;
      }
      pos := next;
      entries := entries + [e.value];
      rounds := rounds + 1;
    }
    EntriesUnfold(0, Slice(buf, pos, end));
    assert entries + [] == entries;
    IncreasingIsOrdered(entries);
    return Ok(entries), pos, rounds;
  }

  lemma EntriesNeedCount(code: vint, b: Bytes)
    ensures DecV(b).None? ==> DecodeBody(PIPE_ACK, code, b) == Err(FrameEncodingError)
  {
  }

  lemma AckBody(code: vint, b: Bytes, count: vint, n: nat)
    requires DecV(b) == Some((count, n))
    ensures DecodeBody(PIPE_ACK, code, b) ==
              match ParseEntries(count, b[n..])
              case None => Err(FrameEncodingError)
              case Some((es, m)) =>
                if count != 0 && IncreasingEntries(es) then Ok((PipeAck(es), n + m)) else Err(FrameEncodingError)
  {
    hide DecV, ParseEntries, IncreasingEntries;
    var es := ParseEntries(count, b[n..]);
    if es.Some? {
      EndParse(b[n + es.value.1..]);
      assert Parse(Then(KEntries, End), b) == Some((FCons(FEntries(es.value.0), FNil), n + es.value.1));
    }
  }

  method DecodeAck(code: vint, buf: Bytes, start: nat, end: nat) returns (r: Result<Frame>, pos: nat)
    requires end <= |buf|
    ensures Decodes(r, pos, PIPE_ACK, code, buf, start, end)
  {
    hide DecV, ParseEntries, DecodeBody, IncreasingEntries, Slice;
    Unparsed(PIPE_ACK, code);
    EntriesNeedCount(code, Slice(buf, start, end));
    pos := start;
    var count;
    count, pos :- ReadVarint(buf, start, end);
    AckBody(code, Slice(buf, start, end), count, pos - start);
    if count == 0 {
      return Err(FrameEncodingError), pos;
    }
    var entries, p2, _ := ReadEntries(buf, pos, end, count);
    pos := p2;
    if entries.Err? {
      return Err(entries.code), pos;
    }
    return Ok(PipeAck(entries.value)), pos;
  }

  lemma BuildLane(code: vint, key: Bytes, pipe: vint, lane: vint)
    ensures Build(PIPE_LANE, code, FCons(FFixed(key), V2(pipe, lane))) == Ok(PipeLane(key, pipe, lane))
  {
  }

  method DecodeLane(code: vint, buf: Bytes, start: nat, end: nat) returns (r: Result<Frame>, pos: nat)
    requires end <= |buf|
    ensures Decodes(r, pos, PIPE_LANE, code, buf, start, end)
  {
    hide Parse, Slice, Build, DecV;
    var key, v;
    ghost var rest;
    key, pos, rest :- ReadFixed(buf, start, end, LANE_KEY_BYTES, ShapeOf(PIPE_LANE, code));
    v, pos :- ReadV2(buf, pos, end);
    BuildLane(code, key, v.0, v.1);
    return Ok(PipeLane(key, v.0, v.1)), pos;
  }
}
