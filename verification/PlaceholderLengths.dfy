/** When the length of some records does not depend on what their placeholders resolve to
    (tools/zmuxwire/tracedsl.py lines 322-339). */
module PlaceholderLengths {
  import opened Base
  import opened Varint
  import opened Registry
  import opened Frames
  import opened Canonical
  import opened Trees
  import opened Dicts
  import opened Placeholders
  import opened BlurredDicts
  import opened BlurredLengths

  // ---------------------------------------------------------------- counts that matter

  predicate IsSent(o: Option<Obj>) {
    o.Some? && o.value.Dict? && HasKey(o.value.entries, KSent)
  }

  /** The frame that a dict describes with the stand-ins. */
  function Standing(t: Obj): Option<Frame> {
    FrameOf(StandIn(t))
  }

  /** encode_frame of a dict; None when it raises. */
  function FrameBytes(o: Obj): Option<Bytes> {
    var f :- FrameOf(o);
    if Encodable(f) then Some(Wire(f)) else None
  }

  /** The length of bytes, if there are any. */
  function Length(b: Option<Bytes>): Option<nat> {
    if b.None? then None else Some(|b.value|)
  }

  /** A placeholder counts PADDING bytes, or repetitions of a frame that takes any bytes. */
  predicate Live(t: Obj)
    decreases Size(t)
  {
    t.Dict? && !HasKey(t.entries, KSent) &&
    match Get(t.entries, KType)
    case Some(Str(FrameText(PADDING))) => IsSent(Get(t.entries, KCount))
    case Some(Str(RepeatText)) =>
      var inner := Get(t.entries, KFrame);
      inner.Some? &&
      if IsSent(Get(t.entries, KCount)) then FrameBytes(StandIn(inner.value)) !in {None, Some([])}
      else IntAt(t.entries, KCount).GetOr(0) > 0 && Live(inner.value)
    case _ => false
  }

  predicate LiveFrames(items: seq<Obj>) {
    items != [] && (Live(items[0]) || LiveFrames(items[1..]))
  }

  predicate LiveRecord(t: Obj) {
    t.List? && LiveFrames(t.items)
  }

  predicate LiveRecords(ts: seq<Obj>) {
    ts != [] && (LiveRecord(ts[0]) || LiveRecords(ts[1..]))
  }

  // ---------------------------------------------------------------- reading a template

  lemma {:induction false} GetResolved(ts: seq<Entry>, os: seq<Entry>, k: Key)
    requires ResolvesEntries(ts, os)
    ensures Get(StandInEntries(ts), k) == if Get(ts, k).None? then None else Some(StandIn(Get(ts, k).value))
    ensures Get(ts, k).Some? == Get(os, k).Some?
    ensures Get(ts, k).Some? ==> Resolves(Get(ts, k).value, Get(os, k).value)
  {
    hide StandIn, Resolves;
    if ts == [] {
    } else {
      GetResolved(ts[1..], os[1..], k);
      assert StandInEntries(ts)[1..] == StandInEntries(ts[1..]);
    }
  }

  lemma {:induction false} GetFilled(ts: seq<Entry>, counts: Counts, k: Key)
    ensures Get(FillInEntries(ts, counts), k) ==
              if Get(ts, k).None? then None else Some(FillIn(Get(ts, k).value, counts))
  {
    hide FillIn;
    if ts == [] {
    } else {
      GetFilled(ts[1..], counts, k);
      assert FillInEntries(ts, counts)[1..] == FillInEntries(ts[1..], counts);
    }
  }

  /** A count that is no placeholder is the same in all three trees. */
  lemma SameCount(ts: seq<Entry>, os: seq<Entry>)
    requires ResolvesEntries(ts, os) && !IsSent(Get(ts, KCount))
    ensures IntAt(StandInEntries(ts), KCount) == IntAt(ts, KCount) == IntAt(os, KCount)
    ensures IntOr(StandInEntries(ts), KCount, 1) == IntOr(os, KCount, 1)
  {
    hide ResolvesEntries, ResolvesItems, StandInEntries, StandInItems, Get;
    GetResolved(ts, os, KCount);
  }

  lemma KindParts(kind: FrameKind, es: seq<Entry>)
    requires FrameOfKind(kind, es).Some?
    ensures !FrameOfKind(kind, es).value.Repeat? && (FrameOfKind(kind, es).value.Padding? <==> kind == PADDING)
    ensures kind == PADDING ==> IntOr(es, KCount, 1) == Some(FrameOfKind(kind, es).value.count)
  {
    hide Get, IntAt, IntOr, RawAt, RawOr, TruthAt, FlagAt, ParamsOf, AcksOf;
  }

  /** What a dict that describes a frame looks like. */
  lemma FrameParts(o: Obj)
    requires FrameOf(o).Some?
    ensures o.Dict? && IsText(Get(o.entries, KType))
    ensures FrameOf(o).value.Padding? <==> Get(o.entries, KType) == Some(Str(FrameText(PADDING)))
    ensures FrameOf(o).value.Padding? ==> IntOr(o.entries, KCount, 1) == Some(FrameOf(o).value.count)
    ensures FrameOf(o).value.Repeat? <==> Get(o.entries, KType) == Some(Str(RepeatText))
    ensures FrameOf(o).value.Repeat? ==>
              && IntAt(o.entries, KCount) == Some(FrameOf(o).value.times)
              && Get(o.entries, KFrame).Some? && FrameOf(Get(o.entries, KFrame).value) == Some(FrameOf(o).value.frame)
              && Size(Get(o.entries, KFrame).value) < Size(o)
  {
    hide Get, IntAt, IntOr, CoreOf, ControlOf, DataOf, OtherOf;
    if Get(o.entries, KType) != Some(Str(RepeatText)) {
      KindParts(Get(o.entries, KType).value.text.kind, o.entries);
    }
  }

  /** A template and what it resolves to are dicts of the same type. */
  lemma SameType(t: Obj, o: Obj)
    requires Resolves(t, o) && Standing(t).Some?
    ensures t.Dict? && !HasKey(t.entries, KSent) && StandIn(t) == Dict(StandInEntries(t.entries))
    ensures o.Dict? && ResolvesEntries(t.entries, o.entries)
    ensures IsText(Get(t.entries, KType))
    ensures Get(t.entries, KType) == Get(o.entries, KType) == Get(StandInEntries(t.entries), KType)
  {
    hide ResolvesEntries, ResolvesItems, StandInEntries, StandInItems, Get, FrameOf;
    FrameParts(StandIn(t));
    GetResolved(t.entries, o.entries, KType);
  }

  /** Blurred, they describe the same frame. */
  lemma SameFrame(t: Obj, o: Obj)
    requires Resolves(t, o)
    ensures Standing(t).Some? == FrameOf(o).Some?
    ensures FrameOf(o).Some? ==> BlurFrame(Standing(t).value) == BlurFrame(FrameOf(o).value)
    ensures FrameOf(o).Some? ==> (Encodable(Standing(t).value) <==> Encodable(FrameOf(o).value))
  {
    hide Resolves, BlurObj, StandIn, FrameOf, BlurFrame, Encodable;
    ResolvedIsBlurred(t, o);
    FrameBlurred(StandIn(t));
    FrameBlurred(o);
    if FrameOf(o).Some? {
      EncodableBlurred(Standing(t).value);
      EncodableBlurred(FrameOf(o).value);
    }
  }

  lemma SameConstructor(f: Frame, g: Frame)
    requires BlurFrame(f) == BlurFrame(g)
    ensures f.Padding? == g.Padding? && f.Repeat? == g.Repeat?
  {
    hide Blur, BlurParams, BlurAcks;
  }

  // ---------------------------------------------------------------- repeated bytes

  lemma {:induction false} TimesGrows(b: Bytes, c: Bytes, m: nat, n: nat)
    requires |b| <= |c| && m <= n
    ensures |Times(b, m)| <= |Times(c, n)|
    ensures m < n && c != [] ==> |Times(b, m)| < |Times(c, n)|
    ensures |b| < |c| && m > 0 ==> |Times(b, m)| < |Times(c, n)|
    decreases m
  {
    if m == 0 {
    } else {
      TimesGrows(b, c, m - 1, n - 1);
    }
  }

  lemma {:induction false} TimesAlike(b: Bytes, c: Bytes, m: int, n: int)
    requires |b| == |c| && (b == [] || m == n || (m <= 0 && n <= 0))
    ensures |Times(b, m)| == |Times(c, n)|
    decreases if m > 0 then m else 0, if n > 0 then n else 0
  {
    if m > 0 {
      TimesAlike(b, c, m - 1, if m == n then n - 1 else n);
    } else if n > 0 {
      TimesAlike(b, c, m, n - 1);
    }
  }

  // ---------------------------------------------------------------- one frame

  lemma RepeatCount(ts: seq<Entry>, os: seq<Entry>)
    requires ResolvesEntries(ts, os)
    ensures if IsSent(Get(ts, KCount)) then
              && IntAt(StandInEntries(ts), KCount) == Some(PLACEHOLDER_STANDIN)
              && IntAt(os, KCount).Some? && InBand(IntAt(os, KCount).value)
            else IntAt(StandInEntries(ts), KCount) == IntAt(ts, KCount) == IntAt(os, KCount)
  {
    hide ResolvesEntries, StandInEntries, Get;
    GetResolved(ts, os, KCount);
    if !IsSent(Get(ts, KCount)) {
      SameCount(ts, os);
    }
  }

  /** The REPEAT that a template and what it resolves to describe, part by part. */
  lemma Repetition(t: Obj, o: Obj)
    requires Resolves(t, o) && Standing(t).Some? && Standing(t).value.Repeat?
    ensures FrameOf(o).Some? && FrameOf(o).value.Repeat? && t.Dict? && o.Dict? && !HasKey(t.entries, KSent)
    ensures Get(t.entries, KType) == Some(Str(RepeatText))
    ensures Get(t.entries, KFrame).Some? && Get(o.entries, KFrame).Some?
    ensures var (inner, other) := (Get(t.entries, KFrame).value, Get(o.entries, KFrame).value);
            && Size(inner) < Size(t) && Resolves(inner, other)
            && Standing(inner) == Some(Standing(t).value.frame) && FrameOf(other) == Some(FrameOf(o).value.frame)
    ensures var (m, n) := (Standing(t).value.times, FrameOf(o).value.times);
            && IntAt(o.entries, KCount) == Some(n)
            && if IsSent(Get(t.entries, KCount)) then m == PLACEHOLDER_STANDIN && InBand(n)
               else m == n && IntAt(t.entries, KCount) == Some(n)
  {
    hide Resolves, FrameOf, StandIn, Get, BlurFrame, Encodable, ResolvesEntries, StandInEntries, EntriesSize, IntAt;
    SameType(t, o);
    SameFrame(t, o);
    SameConstructor(Standing(t).value, FrameOf(o).value);
    FrameParts(StandIn(t));
    FrameParts(o);
    GetResolved(t.entries, o.entries, KFrame);
    RepeatCount(t.entries, o.entries);
  }

  /** The bytes of a REPEAT. */
  lemma RepeatBytes(f: Frame)
    requires f.Repeat?
    ensures Encodable(f) <==> Encodable(f.frame)
    ensures Encodable(f) ==> Wire(f) == Times(Wire(f.frame), f.times)
  {
  }

  lemma PaddingBytes(f: Frame)
    requires f.Padding?
    ensures Encodable(f) && |Wire(f)| == if f.count > 0 then f.count else 0
  {
  }

  /** The count of a PADDING frame, in a template and in what it resolves to. */
  lemma PaddingCount(t: Obj, o: Obj)
    requires Resolves(t, o) && Standing(t).Some? && Standing(t).value.Padding?
    ensures FrameOf(o).Some? && FrameOf(o).value.Padding? && t.Dict? && !HasKey(t.entries, KSent)
    ensures Get(t.entries, KType) == Some(Str(FrameText(PADDING))) && o.Dict?
    ensures if IsSent(Get(t.entries, KCount))
            then
              && Standing(t).value.count == PLACEHOLDER_STANDIN
              && IntAt(o.entries, KCount) == Some(FrameOf(o).value.count)
            else Standing(t).value.count == FrameOf(o).value.count
  {
    hide Resolves, FrameOf, StandIn, BlurFrame, Encodable, ResolvesEntries, StandInEntries, Get;
    SameType(t, o);
    SameFrame(t, o);
    SameConstructor(Standing(t).value, FrameOf(o).value);
    FrameParts(StandIn(t));
    FrameParts(o);
    GetResolved(t.entries, o.entries, KCount);
    if IsSent(Get(t.entries, KCount)) {
      RepeatCount(t.entries, o.entries);
    } else {
      SameCount(t.entries, o.entries);
    }
  }

  lemma {:induction false} LiveTakesBytes(t: Obj)
    requires Live(t) && FrameBytes(StandIn(t)).Some?
    ensures FrameBytes(StandIn(t)).value != []
    decreases Size(t)
  {
    hide FrameOf, StandIn, FillIn, Encodable, Wire, Get, Resolves, Times;
    var o := FillIn(t, Always(PLACEHOLDER_STANDIN));
    FillInResolves(t, Always(PLACEHOLDER_STANDIN));
    FrameParts(StandIn(t));
    SameType(t, o);
    var f := Standing(t).value;
    if f.Repeat? {
      Repetition(t, o);
      RepeatBytes(f);
      if !IsSent(Get(t.entries, KCount)) {
        LiveTakesBytes(Get(t.entries, KFrame).value);
      }
      TimesGrows([], Wire(f.frame), 0, f.times);
    } else {
      PaddingCount(t, o);
      PaddingBytes(f);
    }
  }

  lemma NoTimes(b: Bytes, n: int)
    requires n <= 0
    ensures Times(b, n) == []
  {
  }

  /** A template without a count that matters describes frames of one length. */
  lemma {:induction false} FrameLength(t: Obj, o: Obj)
    requires Resolves(t, o) && !Live(t)
    ensures Length(FrameBytes(StandIn(t))) == Length(FrameBytes(o))
    decreases Size(t)
  {
    hide FrameOf, StandIn, Encodable, Wire, Get, Resolves, BlurFrame, Times, IntAt, Size;
    SameFrame(t, o);
    if Standing(t).Some? && Encodable(Standing(t).value) {
      var f, g := Standing(t).value, FrameOf(o).value;
      SameConstructor(f, g);
      if f.Padding? {
        PaddingCount(t, o);
        PaddingBytes(f);
        PaddingBytes(g);
      } else if f.Repeat? {
        Repetition(t, o);
        RepeatBytes(f);
        RepeatBytes(g);
        var inner, other := Get(t.entries, KFrame).value, Get(o.entries, KFrame).value;
        if f.times > 0 {
          if Live(inner) {
            LiveTakesBytes(inner);
          }
          FrameLength(inner, other);
          TimesAlike(Wire(f.frame), Wire(g.frame), f.times, g.times);
        } else {
          NoTimes(Wire(f.frame), f.times);
          NoTimes(Wire(g.frame), g.times);
        }
      } else {
        FrameAsLong(f);
        FrameAsLong(g);
      }
    }
  }

  /** One more than the stand-in. */
  const NEXT: int := PLACEHOLDER_STANDIN + 1

  const RAISE: Counts := Always(NEXT)

  /** The count of a dict that is filled in, and its inner frame. */
  lemma FilledCount(t: Obj)
    requires t.Dict? && !HasKey(t.entries, KSent)
    ensures FillIn(t, RAISE).Dict?
    ensures IsSent(Get(t.entries, KCount)) ==> IntAt(FillIn(t, RAISE).entries, KCount) == Some(NEXT)
    ensures Get(t.entries, KFrame).Some? ==>
              Get(FillIn(t, RAISE).entries, KFrame) == Some(FillIn(Get(t.entries, KFrame).value, RAISE))
  {
    hide FillInEntries, Get;
    GetFilled(t.entries, RAISE, KCount);
    GetFilled(t.entries, RAISE, KFrame);
  }

  lemma {:induction false} LiveFrameGrows(t: Obj)
    requires Live(t) && FrameBytes(StandIn(t)).Some? && FrameBytes(FillIn(t, RAISE)).Some?
    ensures |FrameBytes(StandIn(t)).value| < |FrameBytes(FillIn(t, RAISE)).value|
    decreases Size(t), 0
  {
    hide FrameOf, StandIn, FillIn, Encodable, Wire, Get, Resolves, Times, IntAt, Size;
    var o := FillIn(t, RAISE);
    FillInResolves(t, RAISE);
    FrameParts(StandIn(t));
    SameType(t, o);
    FilledCount(t);
    var f, g := Standing(t).value, FrameOf(o).value;
    if f.Repeat? {
      Repetition(t, o);
      RepeatBytes(f);
      RepeatBytes(g);
      var inner := Get(t.entries, KFrame).value;
      FrameGrows(inner);
      assert FrameBytes(StandIn(inner)) == Some(Wire(f.frame));
      assert FrameBytes(FillIn(inner, RAISE)) == Some(Wire(g.frame));
      TimesGrows(Wire(f.frame), Wire(g.frame), f.times, g.times);
    } else {
      PaddingCount(t, o);
      PaddingBytes(f);
      PaddingBytes(g);
    }
  }

  /** Filled in with a larger value, a template describes a frame no shorter, and a longer one
      if a count matters. */
  lemma {:induction false} FrameGrows(t: Obj)
    requires FrameBytes(StandIn(t)).Some?
    ensures FrameBytes(FillIn(t, RAISE)).Some?
    ensures |FrameBytes(StandIn(t)).value| <= |FrameBytes(FillIn(t, RAISE)).value|
    ensures Live(t) ==> |FrameBytes(StandIn(t)).value| < |FrameBytes(FillIn(t, RAISE)).value|
    decreases Size(t)
  {
    hide FrameOf, StandIn, FillIn, Encodable, Wire, Get, Resolves, BlurFrame, Times, IntAt, Size;
    var o := FillIn(t, RAISE);
    FillInResolves(t, RAISE);
    SameFrame(t, o);
    if !Live(t) {
      FrameLength(t, o);
    } else {
      LiveFrameGrows(t);
    }
  }

  // ---------------------------------------------------------------- records

  lemma EncodableSplit(fs: seq<Frame>)
    requires fs != []
    ensures AllEncodable(fs) <==> Encodable(fs[0]) && AllEncodable(fs[1..])
  {
    hide Encodable;
    if Encodable(fs[0]) && AllEncodable(fs[1..]) {
      assert fs == [fs[0]] + fs[1..];
    }
  }

  /** The bytes of a list of frames, frame by frame. */
  lemma MessageStep(items: seq<Obj>)
    ensures MessageBytesOf(List([])) == Some([])
    ensures items != [] ==>
              MessageBytesOf(List(items)) ==
                if FrameBytes(items[0]).None? || MessageBytesOf(List(items[1..])).None? then None
                else Some(FrameBytes(items[0]).value + MessageBytesOf(List(items[1..])).value)
  {
    hide FrameOf, Encodable, Wire;
    if items != [] && FramesOf(items).Some? {
      var fs := FramesOf(items).value;
      assert fs[1..] == FramesOf(items[1..]).value;
      EncodableSplit(fs);
    }
  }

  lemma {:induction false} MessageLength(ts: seq<Obj>, os: seq<Obj>)
    requires ResolvesItems(ts, os) && !LiveFrames(ts)
    ensures Length(MessageBytesOf(List(StandInItems(ts)))) == Length(MessageBytesOf(List(os)))
  {
    hide Resolves, StandIn, FrameBytes, MessageBytesOf, Live;
    MessageStep(StandInItems(ts));
    MessageStep(os);
    if ts != [] {
      FrameLength(ts[0], os[0]);
      MessageLength(ts[1..], os[1..]);
      assert StandInItems(ts)[1..] == StandInItems(ts[1..]);
    } else {
      assert os == [];
    }
  }

  lemma {:induction false} MessageGrows(ts: seq<Obj>)
    requires MessageBytesOf(List(StandInItems(ts))).Some?
    ensures var small := MessageBytesOf(List(StandInItems(ts)));
            var large := MessageBytesOf(List(FillInItems(ts, RAISE)));
            && large.Some? && |small.value| <= |large.value|
            && (LiveFrames(ts) ==> |small.value| < |large.value|)
  {
    hide StandIn, FillIn, FrameBytes, MessageBytesOf, Live;
    MessageStep(StandInItems(ts));
    MessageStep(FillInItems(ts, RAISE));
    if ts == [] {
    } else {
      FrameGrows(ts[0]);
      assert StandInItems(ts)[1..] == StandInItems(ts[1..]);
      assert FillInItems(ts, RAISE)[1..] == FillInItems(ts[1..], RAISE);
      MessageGrows(ts[1..]);
    }
  }

  /** A record is its Size and the message of its frames. */
  lemma RecordIsMessage(o: Obj)
    ensures RecordBytesOf(o) ==
              if MessageBytesOf(o).None? || !IsVarint(|MessageBytesOf(o).value|) then None
              else Some(EncV(|MessageBytesOf(o).value|) + MessageBytesOf(o).value)
  {
    hide EncV, FramesOf, AllEncodable, WireAll;
  }

  lemma NotAMessage(o: Obj)
    requires !o.List?
    ensures MessageBytesOf(o) == None
  {
  }

  lemma RecordLength(t: Obj, o: Obj)
    requires Resolves(t, o) && !LiveRecord(t)
    ensures Length(RecordBytesOf(StandIn(t))) == Length(RecordBytesOf(o))
  {
    hide RecordBytesOf, MessageBytesOf, EncV, LiveFrames, ResolvesItems, ResolvesEntries, StandInItems, StandInEntries;
    RecordIsMessage(StandIn(t));
    RecordIsMessage(o);
    if t.List? {
      MessageLength(t.items, o.items);
    } else {
      NotAMessage(StandIn(t));
      NotAMessage(o);
    }
  }

  lemma RecordGrows(t: Obj)
    requires RecordBytesOf(StandIn(t)).Some? && RecordBytesOf(FillIn(t, RAISE)).Some?
    ensures |RecordBytesOf(StandIn(t)).value| <= |RecordBytesOf(FillIn(t, RAISE)).value|
    ensures LiveRecord(t) ==> |RecordBytesOf(StandIn(t)).value| < |RecordBytesOf(FillIn(t, RAISE)).value|
  {
    hide RecordBytesOf, MessageBytesOf, EncV, LiveFrames, StandInItems, StandInEntries, FillInItems, FillInEntries;
    RecordIsMessage(StandIn(t));
    RecordIsMessage(FillIn(t, RAISE));
    if !t.List? {
      NotAMessage(StandIn(t));
    } else {
      MessageGrows(t.items);
    }
  }

  lemma {:induction false} RecordsLength(ts: seq<Obj>, os: seq<Obj>)
    requires ResolvesItems(ts, os) && !LiveRecords(ts)
    ensures Length(RecordsBytes(StandInItems(ts))) == Length(RecordsBytes(os))
  {
    hide Resolves, StandIn, RecordBytesOf, LiveFrames;
    if ts == [] {
    } else {
      RecordLength(ts[0], os[0]);
      RecordsLength(ts[1..], os[1..]);
      assert StandInItems(ts)[1..] == StandInItems(ts[1..]);
    }
  }

  lemma {:induction false} RecordsGrow(ts: seq<Obj>)
    requires RecordsBytes(StandInItems(ts)).Some? && RecordsBytes(FillInItems(ts, RAISE)).Some?
    ensures |RecordsBytes(StandInItems(ts)).value| <= |RecordsBytes(FillInItems(ts, RAISE)).value|
    ensures LiveRecords(ts) ==> |RecordsBytes(StandInItems(ts)).value| < |RecordsBytes(FillInItems(ts, RAISE)).value|
  {
    hide StandIn, FillIn, RecordBytesOf, LiveFrames;
    if ts == [] {
    } else {
      assert StandInItems(ts)[1..] == StandInItems(ts[1..]);
      assert FillInItems(ts, RAISE)[1..] == FillInItems(ts[1..], RAISE);
      RecordGrows(ts[0]);
      RecordsGrow(ts[1..]);
    }
  }

  // ---------------------------------------------------------------- lengths without resolving

  /** Whatever values of the band the placeholders of some records resolve to, the records can
      be encoded exactly when their length can be told beforehand, and have that length: unless
      a placeholder is a count that matters. */
  lemma LengthWithoutResolving(ts: seq<Obj>, os: seq<Obj>)
    requires ResolvesItems(ts, os) && !LiveRecords(ts)
    ensures PlaceholderRecordLen(ts) == Length(RecordsBytes(os))
  {
    hide ResolvesItems, RecordsBytes, StandInItems, LiveRecords;
    RecordsLength(ts, os);
  }

  /** And if one is, some values of the band give another length. */
  lemma LiveCountsMatter(ts: seq<Obj>)
    requires PlaceholderRecordLen(ts).Some? && LiveRecords(ts)
    ensures ResolvesItems(ts, FillInItems(ts, RAISE))
    ensures PlaceholderRecordLen(ts) != Length(RecordsBytes(FillInItems(ts, RAISE)))
  {
    hide ResolvesItems, RecordsBytes, StandInItems, FillInItems, LiveRecords;
    FillInItemsResolves(ts, RAISE);
    if RecordsBytes(FillInItems(ts, RAISE)).Some? {
      RecordsGrow(ts);
    }
  }

  /** The length is right for every resolution exactly when no placeholder counts PADDING bytes
      or repetitions that take any. */
  lemma RightWithoutLiveCounts(ts: seq<Obj>)
    requires PlaceholderRecordLen(ts).Some?
    ensures !LiveRecords(ts) <==>
              forall os :: ResolvesItems(ts, os) ==> PlaceholderRecordLen(ts) == Length(RecordsBytes(os))
  {
    hide ResolvesItems, RecordsBytes, StandInItems, FillInItems, LiveRecords, PlaceholderRecordLen;
    if LiveRecords(ts) {
      LiveCountsMatter(ts);
    } else {
      forall os | ResolvesItems(ts, os) ensures PlaceholderRecordLen(ts) == Length(RecordsBytes(os)) {
        LengthWithoutResolving(ts, os);
      }
    }
  }

  // ---------------------------------------------------------------- an example

  /** One record with one PADDING frame of `n` bytes, or of as many as a placeholder says. */
  function PaddingRecords(n: Obj): seq<Obj> {
    [List([Dict([Entry(KType, Str(FrameText(PADDING))), Entry(KCount, n)])])]
  }

  const SOME_COUNT: Obj := Dict([Entry(KSent, Num(0))])

  lemma PaddingFrame(n: int)
    ensures FrameOf(PaddingRecords(Num(n))[0].items[0]) == Some(Padding(n))
  {
    var es := PaddingRecords(Num(n))[0].items[0].entries;
    assert Get(es, KCount) == Some(Num(n)) by { assert Get(es[1..], KCount) == Some(Num(n)); }
  }

  lemma OneFrame(o: Obj, f: Frame)
    requires FrameOf(o) == Some(f) && Encodable(f)
    ensures FramesOf([o]) == Some([f]) && AllEncodable([f]) && WireAll([f]) == Wire(f)
  {
    hide FrameOf, Encodable, Wire;
    assert [o][1..] == [] && FramesOf([]) == Some([]);
    assert [f] + [] == [f];
    assert WireAll([f][1..]) == [];
  }

  lemma PaddingRecordLength(n: int)
    requires InBand(n)
    ensures Length(RecordsBytes(PaddingRecords(Num(n)))) == Some(4 + n)
  {
    hide EncV, Zeros, FrameOf, WireAll, AllEncodable, FramesOf;
    PaddingFrame(n);
    OneFrame(PaddingRecords(Num(n))[0].items[0], Padding(n));
    assert RecordsBytes(PaddingRecords(Num(n))[1..]) == Some([]);
  }

  lemma OneRecordResolves(t: Obj, o: Obj)
    ensures Resolves(List([t]), List([o])) == ResolvesItems([t], [o])
    ensures StandIn(List([t])) == List(StandInItems([t]))
  {
    hide ResolvesItems, StandInItems;
  }

  lemma PaddingEntries(kind: Entry)
    requires kind.val.Str?
    ensures ResolvesEntry(Entry(KCount, SOME_COUNT), Entry(KCount, Num(NEXT))) && ResolvesEntry(kind, kind)
    ensures StandInEntry(Entry(KCount, SOME_COUNT)) == Entry(KCount, Num(PLACEHOLDER_STANDIN))
    ensures StandInEntry(kind) == kind
  {
    assert SOME_COUNT.entries[0].key == KSent;
  }

  lemma TwoKeys(a: Entry, b: Entry, c: Entry, d: Entry)
    ensures ResolvesEntries([a, b], [c, d]) == (ResolvesEntry(a, c) && ResolvesEntry(b, d))
    ensures StandInEntries([a, b]) == [StandInEntry(a), StandInEntry(b)]
  {
    hide ResolvesEntry, StandInEntry;
    assert [a, b][1..] == [b] && [c, d][1..] == [d] && [b][1..] == [] && [d][1..] == [];
    assert ResolvesEntries([], []) && StandInEntries([]) == [];
    assert ResolvesEntries([b], [d]) == ResolvesEntry(b, d);
    assert StandInEntries([b]) == [StandInEntry(b)];
  }

  lemma PaddingDict()
    ensures var t, o := PaddingRecords(SOME_COUNT)[0].items[0], PaddingRecords(Num(NEXT))[0].items[0];
            Resolves(t, o) && StandIn(t) == PaddingRecords(Num(PLACEHOLDER_STANDIN))[0].items[0]
  {
    hide ResolvesEntries, ResolvesEntry, StandInEntries, StandInEntry;
    var kind, count := Entry(KType, Str(FrameText(PADDING))), Entry(KCount, SOME_COUNT);
    TwoKeys(kind, count, kind, Entry(KCount, Num(NEXT)));
    PaddingEntries(kind);
  }

  lemma OneItem(t: Obj, o: Obj)
    ensures ResolvesItems([t], [o]) == Resolves(t, o)
    ensures StandInItems([t]) == [StandIn(t)]
  {
    hide Resolves, StandIn;
    assert [t][1..] == [] && [o][1..] == [] && [StandIn(t)] + [] == [StandIn(t)];
    assert ResolvesItems([], []) && StandInItems([]) == [];
  }

  lemma PaddingStandIn()
    ensures ResolvesItems(PaddingRecords(SOME_COUNT), PaddingRecords(Num(NEXT)))
    ensures StandInItems(PaddingRecords(SOME_COUNT)) == PaddingRecords(Num(PLACEHOLDER_STANDIN))
  {
    hide ResolvesItems, Resolves, StandInItems, StandIn;
    PaddingDict();
    var t, o := PaddingRecords(SOME_COUNT)[0].items[0], PaddingRecords(Num(NEXT))[0].items[0];
    OneItem(t, o);
    OneRecordResolves(t, o);
    OneItem(List([t]), List([o]));
  }

  /** A placeholder that counts PADDING bytes does make the length depend on its value. */
  lemma PaddingCountMatters()
    ensures ResolvesItems(PaddingRecords(SOME_COUNT), PaddingRecords(Num(NEXT)))
    ensures PlaceholderRecordLen(PaddingRecords(SOME_COUNT)) == Some(0x4004)
    ensures Length(RecordsBytes(PaddingRecords(Num(NEXT)))) == Some(0x4005)
  {
    hide RecordsBytes, StandInItems, ResolvesItems;
    PaddingRecordLength(PLACEHOLDER_STANDIN);
    PaddingRecordLength(NEXT);
    PaddingStandIn();
  }
}
