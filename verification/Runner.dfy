/** The runner of a trace: it writes what a placeholder comes to as a varint of four bytes, in the
    positions of a PIPE_ACK (TRACES.md section 6.1; tools/zmuxwire/tracedsl.py lines 308-339). */
module Runner {
  import opened Base
  import opened Varint
  import opened Registry
  import opened Fields
  import opened Frames
  import opened Canonical
  import opened Normal
  import opened Records
  import opened Trees
  import opened Dicts
  import opened Placeholders
  import opened PlaceholderLengths
  import BlurredLengths
  import BodyReader

  // ---------------------------------------------------------------- where placeholders may stand

  /** The counts that the runner can write in four bytes. */
  ghost predicate AllFitFour(counts: Counts) {
    forall p :: 0 <= counts(p) < 0x4000_0000
  }

  /** An entry of a PIPE_ACK in which only the position may be a placeholder. */
  predicate EntryTemplate(t: Obj) {
    t.Dict? && !HasKey(t.entries, KSent)
    && !IsSent(Get(t.entries, KPipe)) && !IsSent(Get(t.entries, KLane)) && !IsSent(Get(t.entries, KDelay))
  }

  predicate EntryTemplates(ts: seq<Obj>) {
    forall i :: 0 <= i < |ts| ==> EntryTemplate(ts[i])
  }

  predicate IsType(t: Obj, text: Text) {
    t.Dict? && !HasKey(t.entries, KSent) && Get(t.entries, KType) == Some(Str(text))
  }

  /** A PIPE_ACK in which only positions may be placeholders. */
  predicate AckTemplate(t: Obj) {
    IsType(t, FrameText(PIPE_ACK)) &&
    match Get(t.entries, KAckEntries)
    case Some(List(items)) => EntryTemplates(items)
    case _ => false
  }

  /** A frame whose placeholders stand in positions of a PIPE_ACK, repeated or not. */
  predicate FrameTemplate(t: Obj)
    decreases Size(t)
  {
    !HasPlaceholder(t) || AckTemplate(t) ||
    (&& IsType(t, RepeatText) && !IsSent(Get(t.entries, KCount))
     && Get(t.entries, KFrame).Some? && FrameTemplate(Get(t.entries, KFrame).value))
  }

  predicate MessageTemplate(ts: seq<Obj>) {
    forall i :: 0 <= i < |ts| ==> FrameTemplate(ts[i])
  }

  predicate RecordTemplate(t: Obj) {
    t.List? && MessageTemplate(t.items)
  }

  predicate RecordsTemplate(ts: seq<Obj>) {
    forall i :: 0 <= i < |ts| ==> RecordTemplate(ts[i])
  }

  // ---------------------------------------------------------------- what the runner writes

  /** A position: in four bytes if it is a placeholder and fits. */
  function PositionBytes(t: Obj, position: vint): Bytes {
    if t.Dict? && IsSent(Get(t.entries, KPosition)) && VarintLen(position) <= 4
    then EncodeWidth(position, 4) else EncV(position)
  }

  function EntryBytes(t: Obj, counts: Counts): Option<Bytes> {
    var e :- AckOf(FillIn(t, counts));
    if !EntryInRange(e) then None
    else Some(EncV(e.pipe) + (EncV(e.lane) + (PositionBytes(t, e.position) + EncV(e.delay))))
  }

  function EntriesBytes(ts: seq<Obj>, counts: Counts): Option<Bytes> {
    if ts == [] then Some([])
    else
      var first :- EntryBytes(ts[0], counts);
      var rest :- EntriesBytes(ts[1..], counts);
      Some(first + rest)
  }

  /** A frame as the runner writes it; None when it cannot. */
  function RunnerFrame(t: Obj, counts: Counts): Option<Bytes>
    requires FrameTemplate(t)
    decreases Size(t)
  {
    if !HasPlaceholder(t) then FrameBytes(t)
    else if AckTemplate(t) then
      var items := Get(t.entries, KAckEntries).value.items;
      var entries :- EntriesBytes(items, counts);
      if IsVarint(|items|) then Some(EncV(PIPE_ACK_TYPE) + (EncV(|items|) + entries)) else None
    else
      var n :- IntAt(t.entries, KCount);
      var inner :- RunnerFrame(Get(t.entries, KFrame).value, counts);
      Some(Times(inner, n))
  }

  function RunnerMessage(ts: seq<Obj>, counts: Counts): Option<Bytes>
    requires MessageTemplate(ts)
  {
    if ts == [] then Some([])
    else
      var first :- RunnerFrame(ts[0], counts);
      var rest :- RunnerMessage(ts[1..], counts);
      Some(first + rest)
  }

  function RunnerRecord(t: Obj, counts: Counts): Option<Bytes>
    requires RecordTemplate(t)
  {
    var body :- RunnerMessage(t.items, counts);
    if IsVarint(|body|) then Some(EncV(|body|) + body) else None
  }

  /** The records of a step as the runner writes them. */
  function RunnerRecords(ts: seq<Obj>, counts: Counts): Option<Bytes>
    requires RecordsTemplate(ts)
  {
    if ts == [] then Some([])
    else
      var first :- RunnerRecord(ts[0], counts);
      var rest :- RunnerRecords(ts[1..], counts);
      Some(first + rest)
  }

  // ---------------------------------------------------------------- the length is known beforehand

  lemma GetStandIn(ts: seq<Entry>, k: Key)
    ensures Get(StandInEntries(ts), k) == if Get(ts, k).None? then None else Some(StandIn(Get(ts, k).value))
  {
    hide StandIn, FillInEntries, StandInEntries, Get;
    FillInEntriesResolves(ts, RAISE);
    GetResolved(ts, FillInEntries(ts, RAISE), k);
  }

  /** An integer that is no placeholder. */
  lemma PlainInt(ts: seq<Entry>, counts: Counts, k: Key)
    requires !IsSent(Get(ts, k))
    ensures IntAt(StandInEntries(ts), k) == IntAt(ts, k) == IntAt(FillInEntries(ts, counts), k)
  {
    hide StandInEntries, FillInEntries, Get, StandInItems, FillInItems;
    GetStandIn(ts, k);
    GetFilled(ts, counts, k);
  }

  lemma SentInt(ts: seq<Entry>, counts: Counts, k: Key)
    requires IsSent(Get(ts, k))
    ensures IntAt(StandInEntries(ts), k) == Some(PLACEHOLDER_STANDIN)
    ensures IntAt(FillInEntries(ts, counts), k) == Some(counts(Get(ts, k).value))
  {
    hide StandInEntries, FillInEntries, Get;
    GetStandIn(ts, k);
    GetFilled(ts, counts, k);
  }

  /** The entry with the stand-in and the entry that is sent. */
  lemma EntryResolved(t: Obj, counts: Counts)
    requires EntryTemplate(t)
    ensures AckOf(StandIn(t)).Some? == AckOf(FillIn(t, counts)).Some?
    ensures AckOf(StandIn(t)).Some? ==>
              var (a, b) := (AckOf(StandIn(t)).value, AckOf(FillIn(t, counts)).value);
              && a.pipe == b.pipe && a.lane == b.lane && a.delay == b.delay
              && if IsSent(Get(t.entries, KPosition))
                 then a.position == PLACEHOLDER_STANDIN && b.position == counts(Get(t.entries, KPosition).value)
                 else a.position == b.position
  {
    hide StandInEntries, FillInEntries, Get, IntAt;
    PlainInt(t.entries, counts, KPipe);
    PlainInt(t.entries, counts, KLane);
    PlainInt(t.entries, counts, KDelay);
    if IsSent(Get(t.entries, KPosition)) {
      SentInt(t.entries, counts, KPosition);
    } else {
      PlainInt(t.entries, counts, KPosition);
    }
  }

  lemma EntryLength(t: Obj, counts: Counts)
    requires EntryTemplate(t) && AllFitFour(counts)
    ensures EntryBytes(t, counts).Some? <==> AckOf(StandIn(t)).Some? && EntryInRange(AckOf(StandIn(t)).value)
    ensures EntryBytes(t, counts).Some? ==> |EntryBytes(t, counts).value| == |PrintEntry(AckOf(StandIn(t)).value)|
  {
    hide EncV, EncodeWidth, AckOf, StandIn, FillIn, Get;
    EntryResolved(t, counts);
  }

  lemma {:induction false} EntriesLength(ts: seq<Obj>, counts: Counts)
    requires EntryTemplates(ts) && AllFitFour(counts)
    ensures var es := AcksOf(StandInItems(ts));
            && (EntriesBytes(ts, counts).Some? <==> es.Some? && EntriesInRange(es.value))
            && (EntriesBytes(ts, counts).Some? ==> |EntriesBytes(ts, counts).value| == |PrintEntries(es.value)|)
            && (es.Some? ==> |es.value| == |ts|)
  {
    hide AckOf, StandIn, EntryBytes, PrintEntry, EntryInRange, EntryTemplate;
    if ts == [] {
    } else {
      EntryLength(ts[0], counts);
      EntriesLength(ts[1..], counts);
      assert StandInItems(ts)[1..] == StandInItems(ts[1..]);
      var es := AcksOf(StandInItems(ts));
      if es.Some? {
        assert es.value[1..] == AcksOf(StandInItems(ts[1..])).value;
        BlurredLengths.RangeSplits(es.value);
      }
    }
  }

  /** A dict of a PIPE_ACK, read and written. */
  lemma AckDict(o: Obj, items: seq<Obj>)
    requires o.Dict? && Get(o.entries, KType) == Some(Str(FrameText(PIPE_ACK)))
    requires Get(o.entries, KAckEntries) == Some(List(items))
    ensures FrameOf(o) == if AcksOf(items).None? then None else Some(PipeAck(AcksOf(items).value))
  {
    hide Get, AcksOf;
  }

  lemma AckWire(es: seq<AckEntry>)
    ensures Encodable(PipeAck(es)) <==> IsVarint(|es|) && EntriesInRange(es)
    ensures Encodable(PipeAck(es)) ==>
              Wire(PipeAck(es)) == EncV(PIPE_ACK_TYPE) + (EncV(|es|) + PrintEntries(es))
  {
    hide EncV, EntriesInRange, PrintEntries;
    assert AllPrintable(FNil) && Print(FNil) == [];
    assert AllPrintable(FieldsOf(PipeAck(es))) <==> Printable(FEntries(es));
    if Encodable(PipeAck(es)) {
      assert Print(FieldsOf(PipeAck(es))) == EncV(|es|) + PrintEntries(es) + [];
    }
  }

  /** A dict of a REPEAT, read and written. */
  lemma RepeatDict(o: Obj)
    requires o.Dict? && Get(o.entries, KType) == Some(Str(RepeatText)) && Get(o.entries, KFrame).Some?
    ensures var (n, inner) := (IntAt(o.entries, KCount), Get(o.entries, KFrame).value);
            && FrameOf(o) == (if n.None? || FrameOf(inner).None? then None
                              else Some(Repeat(n.value, FrameOf(inner).value)))
            && FrameBytes(o) == (if n.None? || FrameBytes(inner).None? then None
                                 else Some(Times(FrameBytes(inner).value, n.value)))
  {
    hide Get, IntAt, Times;
    if FrameOf(o).Some? {
      hide FrameOf, Encodable, Wire;
      RepeatBytes(FrameOf(o).value);
    }
  }

  /** A REPEAT with its placeholders replaced: the same count, and the inner frame resolved. */
  lemma RepeatResolved(t: Obj, counts: Counts)
    requires IsType(t, RepeatText) && !IsSent(Get(t.entries, KCount)) && Get(t.entries, KFrame).Some?
    ensures var inner := Get(t.entries, KFrame).value; var n := IntAt(t.entries, KCount);
            && Size(inner) < Size(t)
            && FrameBytes(StandIn(t)) == (if n.None? || FrameBytes(StandIn(inner)).None? then None
                                          else Some(Times(FrameBytes(StandIn(inner)).value, n.value)))
            && FrameBytes(FillIn(t, counts)) == (if n.None? || FrameBytes(FillIn(inner, counts)).None? then None
                                                 else Some(Times(FrameBytes(FillIn(inner, counts)).value, n.value)))
            && FrameOf(FillIn(t, counts)) == (if n.None? || FrameOf(FillIn(inner, counts)).None? then None
                                              else Some(Repeat(n.value, FrameOf(FillIn(inner, counts)).value)))
  {
    hide FrameOf, FrameBytes, Get, Times, IntAt, StandInEntries, FillInEntries;
    GetStandIn(t.entries, KType);
    GetStandIn(t.entries, KFrame);
    GetFilled(t.entries, counts, KType);
    GetFilled(t.entries, counts, KFrame);
    PlainInt(t.entries, counts, KCount);
    RepeatDict(StandIn(t));
    RepeatDict(FillIn(t, counts));
  }

  lemma AckLengthBefore(t: Obj, counts: Counts)
    requires AckTemplate(t) && HasPlaceholder(t) && AllFitFour(counts)
    ensures Length(RunnerFrame(t, counts)) == Length(FrameBytes(StandIn(t)))
  {
    hide FrameOf, Get, EncV, AcksOf, PrintEntries, EntriesInRange, EntriesBytes, Encodable, Wire, EntryTemplates;
    hide StandInItems, StandInEntries, HasPlaceholder;
    var items := Get(t.entries, KAckEntries).value.items;
    GetStandIn(t.entries, KType);
    GetStandIn(t.entries, KAckEntries);
    AckDict(StandIn(t), StandInItems(items));
    EntriesLength(items, counts);
    if AcksOf(StandInItems(items)).Some? {
      AckWire(AcksOf(StandInItems(items)).value);
    }
  }

  lemma {:induction false} FrameLengthBefore(t: Obj, counts: Counts)
    requires FrameTemplate(t) && AllFitFour(counts)
    ensures Length(RunnerFrame(t, counts)) == Length(FrameBytes(StandIn(t)))
    decreases Size(t)
  {
    hide FrameBytes, StandIn, FillIn, Get, Times, IntAt, Size, HasPlaceholder, AckTemplate;
    if !HasPlaceholder(t) {
      StandInIdentity(t);
    } else if AckTemplate(t) {
      AckLengthBefore(t, counts);
    } else {
      RepeatResolved(t, counts);
      var inner := Get(t.entries, KFrame).value;
      FrameLengthBefore(inner, counts);
      var n, b := IntAt(t.entries, KCount), RunnerFrame(inner, counts);
      if n.Some? && b.Some? {
        TimesAlike(b.value, FrameBytes(StandIn(inner)).value, n.value, n.value);
      }
    }
  }

  lemma {:induction false} MessageLengthBefore(ts: seq<Obj>, counts: Counts)
    requires MessageTemplate(ts) && AllFitFour(counts)
    ensures Length(RunnerMessage(ts, counts)) == Length(MessageBytesOf(List(StandInItems(ts))))
  {
    hide FrameTemplate, StandIn, FrameBytes, MessageBytesOf, RunnerFrame;
    MessageStep(StandInItems(ts));
    if ts == [] {
    } else {
      FrameLengthBefore(ts[0], counts);
      MessageLengthBefore(ts[1..], counts);
      assert StandInItems(ts)[1..] == StandInItems(ts[1..]);
    }
  }

  lemma RecordLengthBefore(t: Obj, counts: Counts)
    requires RecordTemplate(t) && AllFitFour(counts)
    ensures Length(RunnerRecord(t, counts)) == Length(RecordBytesOf(StandIn(t)))
  {
    hide MessageTemplate, RunnerMessage, RecordBytesOf, MessageBytesOf, EncV, StandInItems;
    RecordIsMessage(StandIn(t));
    MessageLengthBefore(t.items, counts);
  }

  lemma {:induction false} RecordsLengthBefore(ts: seq<Obj>, counts: Counts)
    requires RecordsTemplate(ts) && AllFitFour(counts)
    ensures Length(RunnerRecords(ts, counts)) == Length(RecordsBytes(StandInItems(ts)))
  {
    hide RecordTemplate, RunnerRecord, RecordBytesOf, StandIn;
    if ts == [] {
    } else {
      RecordLengthBefore(ts[0], counts);
      RecordsLengthBefore(ts[1..], counts);
      assert StandInItems(ts)[1..] == StandInItems(ts[1..]);
    }
  }

  /** The length of records whose placeholders stand in positions of PIPE_ACKs is known before
      they resolve: placeholder_record_len is that of what the runner writes, for all counts
      below 2^30, and raises exactly when the runner cannot write them. */
  lemma LengthBeforeResolving(ts: seq<Obj>, counts: Counts)
    requires RecordsTemplate(ts) && AllFitFour(counts)
    ensures PlaceholderRecordLen(ts) == Length(RunnerRecords(ts, counts))
  {
    hide RecordsTemplate, RunnerRecords, RecordsBytes, StandInItems;
    RecordsLengthBefore(ts, counts);
  }

  // ---------------------------------------------------------------- counts that take four bytes anyway

  lemma EntryInBand(t: Obj, counts: Counts)
    requires EntryTemplate(t) && AllInBand(counts)
    ensures var e := AckOf(FillIn(t, counts));
            EntryBytes(t, counts) == if e.None? || !EntryInRange(e.value) then None else Some(PrintEntry(e.value))
  {
    hide EncodeWidth, AckOf, StandIn, FillIn, Get;
    EntryResolved(t, counts);
  }

  lemma {:induction false} EntriesInBand(ts: seq<Obj>, counts: Counts)
    requires EntryTemplates(ts) && AllInBand(counts)
    ensures var es := AcksOf(FillInItems(ts, counts));
            && EntriesBytes(ts, counts) == (if es.None? || !EntriesInRange(es.value) then None
                                            else Some(PrintEntries(es.value)))
            && (es.Some? ==> |es.value| == |ts|)
  {
    hide AckOf, FillIn, EntryBytes, PrintEntry, EntryInRange, EntryTemplate, AllInBand;
    if ts == [] {
    } else {
      EntryInBand(ts[0], counts);
      EntriesInBand(ts[1..], counts);
      assert FillInItems(ts, counts)[1..] == FillInItems(ts[1..], counts);
      var es := AcksOf(FillInItems(ts, counts));
      if es.Some? {
        assert es.value[1..] == AcksOf(FillInItems(ts[1..], counts)).value;
        BlurredLengths.RangeSplits(es.value);
      }
    }
  }

  lemma AckInBand(t: Obj, counts: Counts)
    requires AckTemplate(t) && HasPlaceholder(t) && AllInBand(counts)
    ensures RunnerFrame(t, counts) == FrameBytes(FillIn(t, counts))
  {
    hide FrameOf, Get, EncV, AcksOf, PrintEntries, EntriesInRange, EntriesBytes, Encodable, Wire, EntryTemplates;
    hide FillInItems, FillInEntries, HasPlaceholder, AllInBand;
    var items := Get(t.entries, KAckEntries).value.items;
    GetFilled(t.entries, counts, KType);
    GetFilled(t.entries, counts, KAckEntries);
    AckDict(FillIn(t, counts), FillInItems(items, counts));
    EntriesInBand(items, counts);
    if AcksOf(FillInItems(items, counts)).Some? {
      AckWire(AcksOf(FillInItems(items, counts)).value);
    }
  }

  lemma {:induction false} FrameInBand(t: Obj, counts: Counts)
    requires FrameTemplate(t) && AllInBand(counts)
    ensures RunnerFrame(t, counts) == FrameBytes(FillIn(t, counts))
    decreases Size(t)
  {
    hide FrameBytes, StandIn, FillIn, Get, Times, IntAt, Size, HasPlaceholder, AckTemplate, AllInBand;
    if !HasPlaceholder(t) {
      FillInIdentity(t, counts);
    } else if AckTemplate(t) {
      AckInBand(t, counts);
    } else {
      RepeatResolved(t, counts);
      FrameInBand(Get(t.entries, KFrame).value, counts);
    }
  }

  lemma {:induction false} MessageInBand(ts: seq<Obj>, counts: Counts)
    requires MessageTemplate(ts) && AllInBand(counts)
    ensures RunnerMessage(ts, counts) == MessageBytesOf(List(FillInItems(ts, counts)))
  {
    hide FrameTemplate, FillIn, FrameBytes, MessageBytesOf, RunnerFrame, AllInBand;
    MessageStep(FillInItems(ts, counts));
    if ts == [] {
    } else {
      FrameInBand(ts[0], counts);
      MessageInBand(ts[1..], counts);
      assert FillInItems(ts, counts)[1..] == FillInItems(ts[1..], counts);
    }
  }

  lemma RecordInBand(t: Obj, counts: Counts)
    requires RecordTemplate(t) && AllInBand(counts)
    ensures RunnerRecord(t, counts) == RecordBytesOf(FillIn(t, counts))
  {
    hide MessageTemplate, RunnerMessage, RecordBytesOf, MessageBytesOf, EncV, FillInItems, AllInBand;
    RecordIsMessage(FillIn(t, counts));
    MessageInBand(t.items, counts);
  }

  /** Counts that take four bytes anyway are written as record_bytes writes them. */
  lemma {:induction false} WrittenInBand(ts: seq<Obj>, counts: Counts)
    requires RecordsTemplate(ts) && AllInBand(counts)
    ensures RunnerRecords(ts, counts) == RecordsBytes(FillInItems(ts, counts))
  {
    hide RecordTemplate, RunnerRecord, RecordBytesOf, FillIn, AllInBand;
    if ts == [] {
    } else {
      RecordInBand(ts[0], counts);
      WrittenInBand(ts[1..], counts);
      assert FillInItems(ts, counts)[1..] == FillInItems(ts[1..], counts);
    }
  }

  // ---------------------------------------------------------------- what the receiver reads

  lemma PositionReads(t: Obj, position: vint, tail: Bytes)
    ensures DecV(PositionBytes(t, position) + tail) == Some((position, |PositionBytes(t, position)|))
  {
    hide DecV, EncV, EncodeWidth, Get;
    DecodeEncode(position, tail);
    if VarintLen(position) <= 4 {
      DecodeWidth(position, 4, tail);
    }
  }

  lemma EntryReads(t: Obj, counts: Counts, tail: Bytes)
    requires EntryBytes(t, counts).Some?
    ensures AckOf(FillIn(t, counts)).Some? && EntryInRange(AckOf(FillIn(t, counts)).value)
    ensures var b := EntryBytes(t, counts).value;
            ParseEntry(b + tail) == Some((AckOf(FillIn(t, counts)).value, |b|))
  {
    hide DecV, EncV, AckOf, FillIn, PositionBytes;
    var e := AckOf(FillIn(t, counts)).value;
    var p, l, q, d := EncV(e.pipe), EncV(e.lane), PositionBytes(t, e.position), EncV(e.delay);
    FourParts(p, l, q, d, tail);
    DecodeEncode(e.pipe, l + (q + (d + tail)));
    DecodeEncode(e.lane, q + (d + tail));
    PositionReads(t, e.position, d + tail);
    DecodeEncode(e.delay, tail);
  }

  lemma {:induction false} EntriesRead(ts: seq<Obj>, counts: Counts, tail: Bytes)
    requires EntriesBytes(ts, counts).Some?
    ensures var es := AcksOf(FillInItems(ts, counts)); var b := EntriesBytes(ts, counts).value;
            && es.Some? && |es.value| == |ts| && EntriesInRange(es.value)
            && ParseEntries(|ts|, b + tail) == Some((es.value, |b|))
  {
    hide AckOf, FillIn, EntryBytes, ParseEntry;
    if ts == [] {
    } else {
      var head, rest := EntryBytes(ts[0], counts).value, EntriesBytes(ts[1..], counts).value;
      AppendAssoc(head, rest, tail);
      AppendDrop(head, rest + tail);
      EntryReads(ts[0], counts, rest + tail);
      EntriesRead(ts[1..], counts, tail);
      assert FillInItems(ts, counts)[1..] == FillInItems(ts[1..], counts);
    }
  }

  lemma AckBodyReads(ts: seq<Obj>, counts: Counts, tail: Bytes)
    requires EntriesBytes(ts, counts).Some? && IsVarint(|ts|)
    ensures AcksOf(FillInItems(ts, counts)).Some?
    ensures var es := AcksOf(FillInItems(ts, counts)).value; var b := EncV(|ts|) + EntriesBytes(ts, counts).value;
            Parse(ShapeOf(PIPE_ACK, PIPE_ACK_TYPE), b + tail) == Some((FCons(FEntries(es), FNil), |b|))
  {
    hide DecV, EncV, AcksOf, FillInItems, EntriesBytes, ParseEntries, EntriesInRange;
    EntriesRead(ts, counts, tail);
    var entries := EntriesBytes(ts, counts).value;
    AppendAssoc(EncV(|ts|), entries, tail);
    DecodeEncode(|ts|, entries + tail);
    AppendDrop(EncV(|ts|), entries + tail);
    EndParse((EncV(|ts|) + entries + tail)[|EncV(|ts|)| + |entries|..]);
  }

  /** A PIPE_ACK of the runner is read as the one with the counts filled in. */
  lemma AckReads(t: Obj, counts: Counts, tail: Bytes, enabled: Gates, limit: Option<int>)
    requires AckTemplate(t) && HasPlaceholder(t) && RunnerFrame(t, counts).Some?
    ensures var f := FrameOf(FillIn(t, counts)); var b := RunnerFrame(t, counts).value;
            && f.Some? && f.value.PipeAck?
            && (FrameWellFormed(f.value) && Negotiated(PIPE_ACK, enabled) ==>
                  DecodeFrameSpec(b + tail, enabled, limit) == Ok((f.value, |b|)))
  {
    hide DecV, EncV, FrameOf, Get, AcksOf, FillInItems, FillInEntries, EntriesBytes, EntryTemplates, HasPlaceholder;
    hide Parse, ShapeOf, FrameByType, Negotiated, ZeroRun;
    var items := Get(t.entries, KAckEntries).value.items;
    GetFilled(t.entries, counts, KType);
    GetFilled(t.entries, counts, KAckEntries);
    AckBodyReads(items, counts, tail);
    AckDict(FillIn(t, counts), FillInItems(items, counts));
    var es := AcksOf(FillInItems(items, counts)).value;
    var body := EncV(|items|) + EntriesBytes(items, counts).value;
    AppendAssoc(EncV(PIPE_ACK_TYPE), body, tail);
    DecodeEncode(PIPE_ACK_TYPE, body + tail);
    AppendDrop(EncV(PIPE_ACK_TYPE), body + tail);
    KindCodes(PIPE_ACK, PIPE_ACK_TYPE);
    BodyReader.Parsed(PIPE_ACK, PIPE_ACK_TYPE, body + tail, FCons(FEntries(es), FNil), |body|);
  }

  // Reading on: `c` decodes to the merged frames `gs`, and something is put before it.

  lemma FirstOf(f: Frame, w: Bytes, c: Bytes, enabled: Gates, limit: Option<int>)
    requires DecodeFrameSpec(w + c, enabled, limit) == Ok((f, |w|)) && DecodeFramesSpec(c, enabled, limit).Ok?
    ensures DecodeFramesSpec(w + c, enabled, limit) == Ok([f] + DecodeFramesSpec(c, enabled, limit).value)
  {
    hide DecodeFrameSpec;
    AppendDrop(w, c);
  }

  lemma FirstMore(f: Frame, w: Bytes, c: Bytes, gs: seq<Frame>, enabled: Gates, limit: Option<int>)
    requires DecodeFramesSpec(c, enabled, limit) == Ok(Merge(gs)) && !f.Padding?
    requires DecodeFrameSpec(w + c, enabled, limit) == Ok((f, |w|))
    ensures DecodeFramesSpec(w + c, enabled, limit) == Ok(Merge([f] + gs))
  {
    hide DecodeFrameSpec, DecodeFramesSpec;
    FirstOf(f, w, c, enabled, limit);
    assert ([f] + gs)[1..] == gs;
  }

  /** The zero bytes at the front of what decodes to `fs`. */
  function LeadingPadding(fs: seq<Frame>): int {
    if fs != [] && fs[0].Padding? then fs[0].count else 0
  }

  lemma PaddingExtent(c: Bytes, enabled: Gates, limit: Option<int>)
    requires DecodeFrameSpec(c, enabled, limit).Ok? && DecodeFrameSpec(c, enabled, limit).value.0.Padding?
    ensures var (f, n) := DecodeFrameSpec(c, enabled, limit).value; f.count == n && c[..n] == Zeros(n)
  {
    hide DecodeFrameSpec, DecV, EncV, Negotiated;
    FrameShrinks(c, enabled, limit);
    var (f, n) := DecodeFrameSpec(c, enabled, limit).value;
    DecodeIsEncode(c);
    PaddingShrinks(c, enabled, limit);
  }

  lemma PaddedFront(c: Bytes, enabled: Gates, limit: Option<int>)
    requires DecodeFrameSpec(c, enabled, limit).Ok? && DecodeFrameSpec(c, enabled, limit).value.0.Padding?
    ensures var (f, n) := DecodeFrameSpec(c, enabled, limit).value;
            f.count == n && c == Zeros(n) + c[n..] && (n < |c| ==> c[n] != 0)
  {
    hide DecodeFrameSpec, FrameWellFormed, TypeCode, DecV, Negotiated;
    FrameShrinks(c, enabled, limit);
    PaddingFirst(c, enabled, limit);
    PaddingExtent(c, enabled, limit);
  }

  lemma NotPaddedFront(c: Bytes, enabled: Gates, limit: Option<int>)
    requires DecodeFrameSpec(c, enabled, limit).Ok? && !DecodeFrameSpec(c, enabled, limit).value.0.Padding?
    ensures c != [] && c[0] != 0
  {
    hide DecodeFrameSpec, DecV, FrameWellFormed, Negotiated, TypeCode;
    FrameShrinks(c, enabled, limit);
    NonzeroType(DecodeFrameSpec(c, enabled, limit).value.0);
    Minimal.FirstByteOfType(c);
  }

  lemma LeadingZeros(c: Bytes, fs: seq<Frame>, enabled: Gates, limit: Option<int>)
    requires DecodeFramesSpec(c, enabled, limit) == Ok(fs)
    ensures var m := LeadingPadding(fs);
            && 0 <= m <= |c| && c == Zeros(m) + c[m..] && (m < |c| ==> c[m] != 0)
            && (fs != [] && fs[0].Padding? ==> m > 0)
            && DecodeFramesSpec(c[m..], enabled, limit) == Ok(if m > 0 then fs[1..] else fs)
  {
    hide DecodeFrameSpec, FrameWellFormed, TypeCode, DecV, Negotiated;
    if c != [] {
      var (f, n) := DecodeFrameSpec(c, enabled, limit).value;
      FrameShrinks(c, enabled, limit);
      if f.Padding? {
        PaddedFront(c, enabled, limit);
      } else {
        NotPaddedFront(c, enabled, limit);
        assert c == Zeros(0) + c[0..];
      }
    }
  }

  lemma PaddingBefore(n: nat, c: Bytes, fs: seq<Frame>, enabled: Gates, limit: Option<int>)
    requires DecodeFramesSpec(c, enabled, limit) == Ok(fs) && n > 0
    ensures var m := LeadingPadding(fs);
            DecodeFramesSpec(Zeros(n) + c, enabled, limit) == Ok([Padding(n + m)] + if m > 0 then fs[1..] else fs)
  {
    hide DecodeFrameSpec, Zeros, DecodeFramesSpec, LeadingPadding;
    var m := LeadingPadding(fs);
    LeadingZeros(c, fs, enabled, limit);
    ZerosAppend(n, m);
    AppendAssoc(Zeros(n), Zeros(m), c[m..]);
    assert Zeros(n) + c == Zeros(n + m) + c[m..];
    PaddingRoundTrip(n + m, c[m..], enabled, limit);
    FirstOf(Padding(n + m), Zeros(n + m), c[m..], enabled, limit);
  }

  lemma PaddingMore(n: nat, c: Bytes, gs: seq<Frame>, enabled: Gates, limit: Option<int>)
    requires DecodeFramesSpec(c, enabled, limit) == Ok(Merge(gs)) && n > 0
    ensures DecodeFramesSpec(Zeros(n) + c, enabled, limit) == Ok(Merge([Padding(n)] + gs))
  {
    hide DecodeFramesSpec, Zeros;
    PaddingBefore(n, c, Merge(gs), enabled, limit);
    LeadingZeros(c, Merge(gs), enabled, limit);
    assert ([Padding(n)] + gs)[1..] == gs;
  }

  lemma NothingDecoded(c: Bytes, enabled: Gates, limit: Option<int>)
    requires DecodeFramesSpec(c, enabled, limit) == Ok([])
    ensures c == []
  {
    hide DecodeFrameSpec;
  }

  lemma SingleMore(f: Frame, c: Bytes, gs: seq<Frame>, enabled: Gates, limit: Option<int>)
    requires DecodeFramesSpec(c, enabled, limit) == Ok(Merge(gs)) && Sendable([f] + gs, enabled, limit)
    ensures FrameWellFormed(f) && DecodeFramesSpec(Wire(f) + c, enabled, limit) == Ok(Merge([f] + gs))
  {
    hide DecodeFrameSpec, FrameWellFormed, Negotiated, KindOf, TypeCode, FieldsOf, Print, Encodable;
    assert ([f] + gs)[0] == f;
    if gs == [] {
      NothingDecoded(c, enabled, limit);
    }
    if f.Padding? {
      PaddingMore(f.count, c, gs, enabled, limit);
    } else {
      FrameRoundTrip(f, c, enabled, limit);
      FirstMore(f, Wire(f), c, gs, enabled, limit);
    }
  }

  lemma {:induction false} ListMore(xs: seq<Frame>, c: Bytes, gs: seq<Frame>, enabled: Gates, limit: Option<int>)
    requires DecodeFramesSpec(c, enabled, limit) == Ok(Merge(gs)) && Sendable(xs + gs, enabled, limit)
    requires AllEncodable(xs)
    ensures DecodeFramesSpec(WireAll(xs) + c, enabled, limit) == Ok(Merge(xs + gs))
  {
    hide DecodeFramesSpec, Sendable, Encodable, Wire, Merge;
    if xs == [] {
      assert xs + gs == gs && WireAll(xs) + c == c;
    } else {
      SendableStep(xs + gs, enabled, limit);
      assert (xs + gs)[0] == xs[0] && (xs + gs)[1..] == xs[1..] + gs;
      ListMore(xs[1..], c, gs, enabled, limit);
      assert [xs[0]] + (xs[1..] + gs) == xs + gs;
      SingleMore(xs[0], WireAll(xs[1..]) + c, xs[1..] + gs, enabled, limit);
      AppendAssoc(Wire(xs[0]), WireAll(xs[1..]), c);
    }
  }

  lemma {:induction false} SendableRest(xs: seq<Frame>, gs: seq<Frame>, enabled: Gates, limit: Option<int>)
    requires Sendable(xs + gs, enabled, limit)
    ensures Sendable(gs, enabled, limit)
  {
    hide FrameWellFormed, Passes, TakesRest;
    assert forall i :: 0 <= i < |gs| ==> gs[i] == (xs + gs)[|xs| + i];
  }

  lemma AckMore(t: Obj, counts: Counts, c: Bytes, gs: seq<Frame>, enabled: Gates, limit: Option<int>)
    requires AckTemplate(t) && HasPlaceholder(t) && RunnerFrame(t, counts).Some?
    requires DecodeFramesSpec(c, enabled, limit) == Ok(Merge(gs))
    ensures FrameOf(FillIn(t, counts)).Some?
    ensures var xs := Expand(FrameOf(FillIn(t, counts)).value);
            Sendable(xs + gs, enabled, limit) ==>
              DecodeFramesSpec(RunnerFrame(t, counts).value + c, enabled, limit) == Ok(Merge(xs + gs))
  {
    hide FrameOf, FillIn, HasPlaceholder, AckTemplate, DecodeFramesSpec, DecodeFrameSpec, RunnerFrame;
    hide Merge, FrameWellFormed, Negotiated;
    AckReads(t, counts, c, enabled, limit);
    var f := FrameOf(FillIn(t, counts)).value;
    assert Expand(f) == [f];
    if Sendable([f] + gs, enabled, limit) {
      assert ([f] + gs)[0] == f;
      FirstMore(f, RunnerFrame(t, counts).value, c, gs, enabled, limit);
    }
  }

  lemma {:induction false} CopiesMore(t: Obj, n: int, counts: Counts, c: Bytes, gs: seq<Frame>, enabled: Gates,
                                      limit: Option<int>)
    requires FrameTemplate(t) && RunnerFrame(t, counts).Some? && FrameOf(FillIn(t, counts)).Some?
    requires DecodeFramesSpec(c, enabled, limit) == Ok(Merge(gs))
    requires Sendable(Copies(Expand(FrameOf(FillIn(t, counts)).value), n) + gs, enabled, limit)
    ensures var xs := Copies(Expand(FrameOf(FillIn(t, counts)).value), n);
            DecodeFramesSpec(Times(RunnerFrame(t, counts).value, n) + c, enabled, limit) == Ok(Merge(xs + gs))
    decreases Size(t), 1, if n > 0 then n else 0
  {
    hide FrameOf, FillIn, Size, FrameTemplate, DecodeFramesSpec, RunnerFrame;
    hide Sendable, Merge, Expand;
    var b, xs := RunnerFrame(t, counts).value, Expand(FrameOf(FillIn(t, counts)).value);
    if n <= 0 {
      assert Copies(xs, n) + gs == gs && Times(b, n) + c == c;
    } else {
      var more := Copies(xs, n - 1) + gs;
      assert Copies(xs, n) + gs == xs + more;
      SendableRest(xs, more, enabled, limit);
      CopiesMore(t, n - 1, counts, c, gs, enabled, limit);
      FrameMore(t, counts, Times(b, n - 1) + c, more, enabled, limit);
      AppendAssoc(b, Times(b, n - 1), c);
    }
  }

  /** A frame of the runner before what decodes already. */
  lemma {:induction false} FrameMore(t: Obj, counts: Counts, c: Bytes, gs: seq<Frame>, enabled: Gates,
                                     limit: Option<int>)
    requires FrameTemplate(t) && RunnerFrame(t, counts).Some?
    requires DecodeFramesSpec(c, enabled, limit) == Ok(Merge(gs))
    ensures FrameOf(FillIn(t, counts)).Some?
    ensures var xs := Expand(FrameOf(FillIn(t, counts)).value);
            Sendable(xs + gs, enabled, limit) ==>
              DecodeFramesSpec(RunnerFrame(t, counts).value + c, enabled, limit) == Ok(Merge(xs + gs))
    decreases Size(t), 0, 0
  {
    hide FrameOf, FillIn, Get, Times, IntAt, Size, HasPlaceholder, AckTemplate, DecodeFramesSpec;
    hide Sendable, Merge, Encodable, Wire, Copies;
    if !HasPlaceholder(t) {
      FillInIdentity(t, counts);
      var f := FrameOf(t).value;
      ExpandWire(f);
      if Sendable(Expand(f) + gs, enabled, limit) {
        ListMore(Expand(f), c, gs, enabled, limit);
      }
    } else if AckTemplate(t) {
      AckMore(t, counts, c, gs, enabled, limit);
    } else {
      RepeatResolved(t, counts);
      var inner := Get(t.entries, KFrame).value;
      var n := IntAt(t.entries, KCount).value;
      FrameMore(inner, counts, c, gs, enabled, limit);
      var xs := Expand(FrameOf(FillIn(inner, counts)).value);
      if Sendable(Copies(xs, n) + gs, enabled, limit) {
        CopiesMore(inner, n, counts, c, gs, enabled, limit);
      }
    }
  }

  lemma NothingSent(enabled: Gates, limit: Option<int>)
    ensures Merge([]) == [] && DecodeFramesSpec([], enabled, limit) == Ok([])
  {
  }

  /** What the runner sends is read as the frames with the counts filled in, in normal form. */
  lemma {:induction false} MessageMore(ts: seq<Obj>, counts: Counts, enabled: Gates, limit: Option<int>)
    requires MessageTemplate(ts) && RunnerMessage(ts, counts).Some?
    ensures FramesOf(FillInItems(ts, counts)).Some?
    ensures var fs := FramesOf(FillInItems(ts, counts)).value;
            Sendable(ExpandAll(fs), enabled, limit) ==>
              DecodeFramesSpec(RunnerMessage(ts, counts).value, enabled, limit) == Ok(NormalForm(fs))
  {
    hide FrameOf, FillIn, FrameTemplate, DecodeFramesSpec, RunnerFrame, Sendable, Merge, Expand;
    if ts == [] {
      NothingSent(enabled, limit);
    } else {
      MessageMore(ts[1..], counts, enabled, limit);
      NothingSent(enabled, limit);
      FrameMore(ts[0], counts, [], [], enabled, limit);
      assert FillInItems(ts, counts)[1..] == FillInItems(ts[1..], counts);
      var f, fs := FrameOf(FillIn(ts[0], counts)).value, FramesOf(FillInItems(ts[1..], counts)).value;
      assert ([f] + fs)[1..] == fs;
      if Sendable(Expand(f) + ExpandAll(fs), enabled, limit) {
        SendableRest(Expand(f), ExpandAll(fs), enabled, limit);
        FrameMore(ts[0], counts, RunnerMessage(ts[1..], counts).value, ExpandAll(fs), enabled, limit);
      }
    }
  }

  /** What the runner sends is read as the frames with the counts filled in, in normal form,
      exactly when those frames are sendable. */
  lemma MessageInverts(ts: seq<Obj>, counts: Counts, enabled: Gates, limit: Option<int>)
    requires MessageTemplate(ts) && RunnerMessage(ts, counts).Some?
    ensures FramesOf(FillInItems(ts, counts)).Some?
    ensures var fs := FramesOf(FillInItems(ts, counts)).value;
            DecodeFramesSpec(RunnerMessage(ts, counts).value, enabled, limit) == Ok(NormalForm(fs)) <==>
              Sendable(ExpandAll(fs), enabled, limit)
  {
    hide DecodeFramesSpec, Sendable, ExpandAll, Merge, RunnerMessage, MessageTemplate, FramesOf;
    hide FillInItems, Returnable;
    MessageMore(ts, counts, enabled, limit);
    var fs := FramesOf(FillInItems(ts, counts)).value;
    if DecodeFramesSpec(RunnerMessage(ts, counts).value, enabled, limit) == Ok(NormalForm(fs)) {
      ListShrinks(RunnerMessage(ts, counts).value, enabled, limit);
      ExpandPadding(fs);
      MergeReturnable(ExpandAll(fs), enabled, limit);
    }
  }

  /** The frames of a record with the counts filled in. */
  function Resolved(t: Obj, counts: Counts): Option<seq<Frame>> {
    if t.List? then FramesOf(FillInItems(t.items, counts)) else None
  }

  /** A record of the runner before any tail is read in normal form and ends before the tail,
      exactly when its size is accepted and its frames are sendable. */
  lemma RecordInverts(t: Obj, counts: Counts, tail: Bytes, maxSize: int, enabled: Gates)
    requires RecordTemplate(t) && RunnerRecord(t, counts).Some?
    ensures Resolved(t, counts).Some?
    ensures var fs := Resolved(t, counts).value; var b := RunnerRecord(t, counts).value;
            DecodeRecordSpec(b + tail, maxSize, enabled) == Ok(Some((NormalForm(fs), |b|))) <==>
              1 <= |RunnerMessage(t.items, counts).value| <= maxSize && Sendable(ExpandAll(fs), enabled, None)
  {
    hide DecV, EncV, DecodeFramesSpec, NormalForm, ExpandAll, Sendable, MessageTemplate, RunnerMessage, FillInItems;
    hide FramesOf;
    SizePrefix(RunnerMessage(t.items, counts).value, tail);
    MessageInverts(t.items, counts, enabled, None);
  }

  /** The records of a step with the counts filled in. */
  function AllResolved(ts: seq<Obj>, counts: Counts): Option<seq<seq<Frame>>> {
    if ts == [] then Some([])
    else
      var first :- Resolved(ts[0], counts);
      var rest :- AllResolved(ts[1..], counts);
      Some([first] + rest)
  }

  /** A record that a receiver with this limit and these gates reads. */
  predicate RecordAcceptable(t: Obj, counts: Counts, maxSize: int, enabled: Gates)
    requires RecordTemplate(t)
  {
    && RunnerMessage(t.items, counts).Some? && 1 <= |RunnerMessage(t.items, counts).value| <= maxSize
    && Resolved(t, counts).Some? && Sendable(ExpandAll(Resolved(t, counts).value), enabled, None)
  }

  predicate AllAcceptable(ts: seq<Obj>, counts: Counts, maxSize: int, enabled: Gates)
    requires RecordsTemplate(ts)
  {
    ts != [] ==> RecordAcceptable(ts[0], counts, maxSize, enabled) && AllAcceptable(ts[1..], counts, maxSize, enabled)
  }

  lemma RunnerIsComplete(t: Obj, counts: Counts, tail: Bytes, maxSize: int, enabled: Gates)
    requires RecordTemplate(t) && RunnerRecord(t, counts).Some?
    ensures var b := RunnerRecord(t, counts).value; var r := DecodeRecordSpec(b + tail, maxSize, enabled);
            r.Err? || (r.value.Some? && r.value.value.1 == |b|)
  {
    hide EncV, DecV, DecodeFramesSpec, MessageTemplate, RunnerMessage;
    SizePrefix(RunnerMessage(t.items, counts).value, tail);
  }

  lemma FirstInverts(t: Obj, counts: Counts, tail: Bytes, maxSize: int, enabled: Gates)
    requires RecordTemplate(t) && RunnerRecord(t, counts).Some?
    ensures Resolved(t, counts).Some?
    ensures var fs := Resolved(t, counts).value; var b := RunnerRecord(t, counts).value;
            DecodeRecordSpec(b + tail, maxSize, enabled) == Ok(Some((NormalForm(fs), |b|))) <==>
              RecordAcceptable(t, counts, maxSize, enabled)
  {
    hide DecodeRecordSpec, NormalForm, ExpandAll, Sendable, MessageTemplate, RunnerMessage, Resolved, EncV;
    RecordInverts(t, counts, tail, maxSize, enabled);
  }

  /** The receiver reads the records of a step as those with the counts filled in, and then what
      follows them, exactly when it accepts each of them. */
  lemma {:induction false} RecordsInvert(ts: seq<Obj>, counts: Counts, tail: Bytes, maxSize: int, enabled: Gates)
    requires RecordsTemplate(ts) && RunnerRecords(ts, counts).Some?
    ensures AllResolved(ts, counts).Some?
    ensures Drain(RunnerRecords(ts, counts).value + tail, maxSize, enabled) ==
              After(NormalForms(AllResolved(ts, counts).value), Drain(tail, maxSize, enabled)) <==>
              AllAcceptable(ts, counts, maxSize, enabled)
  {
    hide DecodeRecordSpec, RunnerRecord, RecordTemplate, NormalForm, RecordAcceptable, Resolved;
    if ts == [] {
      var rest := Drain(tail, maxSize, enabled);
      assert [] + tail == tail && [] + rest.records == rest.records;
    } else {
      var head, more := RunnerRecord(ts[0], counts).value, RunnerRecords(ts[1..], counts).value;
      AppendAssoc(head, more, tail);
      RunnerIsComplete(ts[0], counts, more + tail, maxSize, enabled);
      FirstInverts(ts[0], counts, more + tail, maxSize, enabled);
      RecordsInvert(ts[1..], counts, tail, maxSize, enabled);
      var frames, others := Resolved(ts[0], counts).value, AllResolved(ts[1..], counts).value;
      assert ([frames] + others)[1..] == others;
      var rest := After(NormalForms(others), Drain(tail, maxSize, enabled));
      AfterFirst(NormalForm(frames), NormalForms(others), Drain(tail, maxSize, enabled));
      DrainFirst(head, more + tail, NormalForm(frames), rest, maxSize, enabled);
    }
  }
}
