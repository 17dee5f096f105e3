/** Frames as the dicts that the Python code passes around, and their JSON form
    (tools/zmuxwire/frames.py lines 644-683). */
module Trees {
  import opened Base
  import opened Registry
  import opened Fields
  import opened TransportParameters
  import opened Frames

  /** The dict keys that the codec uses, and any other. */
  datatype Key =
    | KType | KCount | KId | KCode | KFinalSize | KReliableSize | KOff | KData | KFin | KHasOff | KHasLen
    | KMax | KBidi | KLimit | KApp | KFrameType | KReason | KParams | KResponse | KSeq | KMaxBidi | KMaxUni
    | KUrgency | KIncremental | KLocator | KPipe | KDirection | KCarrierBound | KStandby | KFateGroup
    | KPriority | KToken | KAckEntries | KLane | KPosition | KDelay | KLaneKey | KStatus | KValue | KRaw
    | KRole | KNonce | KFlags | KMaxLanes | KFrame | KMac | KBytes | KNonceBytes | KSent | KOther(name: string)

  datatype RoleTag = InitiatorTag | ResponderTag | AutoTag

  /** A Python string: a name from the registry, or its characters. None of the names is a
      hexadecimal number. */
  datatype Text =
    | FrameText(kind: FrameKind)
    | RepeatText
    | ParamText(param: TpName)
    | DirectionText(direction: Direction)
    | StatusText(status: PipeState)
    | RoleText(role: RoleTag)
    | Chars(s: string)

  datatype Entry = Entry(key: Key, val: Obj)

  datatype Obj =
    | Null
    | Bool(b: bool)
    | Num(n: int)
    | Str(text: Text)
    | Raw(bytes: Bytes)
    | List(items: seq<Obj>)
    | Dict(entries: seq<Entry>)

  // ---------------------------------------------------------------- hexadecimal

  function HexDigit(n: nat): char
    requires n < 16
  {
    "0123456789abcdef"[n]
  }

  function DigitValue(c: char): Option<nat> {
    if '0' <= c <= '9' then Some((c - '0') as nat)
    else if 'a' <= c <= 'f' then Some((c - 'a') as nat + 10)
    else if 'A' <= c <= 'F' then Some((c - 'A') as nat + 10)
    else None
  }

  /** bytes.hex. */
  function Hex(b: Bytes): string {
    if b == [] then "" else [HexDigit(b[0] / 16), HexDigit(b[0] % 16)] + Hex(b[1..])
  }

  predicate IsSpace(c: char) {
    c == ' ' || c == '\t' || c == '\n' || c == '\r' || c == 11 as char || c == 12 as char
  }

  /** bytes.fromhex: white space may stand between bytes; None stands for ValueError. */
  function FromHex(s: string): Option<Bytes> {
    if s == "" then Some([])
    else if IsSpace(s[0]) then FromHex(s[1..])
    else if |s| < 2 || DigitValue(s[0]).None? || DigitValue(s[1]).None? then None
    else
      var rest :- FromHex(s[2..]);
      Some([DigitValue(s[0]).value * 16 + DigitValue(s[1]).value] + rest)
  }

  lemma HexDigits(n: nat)
    requires n < 16
    ensures DigitValue(HexDigit(n)) == Some(n) && !IsSpace(HexDigit(n))
  {
    var c := HexDigit(n);
    if n < 10 {
      assert c == ['0', '1', '2', '3', '4', '5', '6', '7', '8', '9'][n];
    } else {
      assert c == ['a', 'b', 'c', 'd', 'e', 'f'][n - 10];
    }
  }

  lemma NoHex()
    ensures FromHex("") == Some([])
  {
  }

  lemma FromHexPair(hi: char, lo: char, rest: string)
    requires !IsSpace(hi) && DigitValue(hi).Some? && DigitValue(lo).Some? && FromHex(rest).Some?
    ensures FromHex([hi, lo] + rest) == Some([DigitValue(hi).value * 16 + DigitValue(lo).value] + FromHex(rest).value)
  {
    hide DigitValue, IsSpace;
    assert ([hi, lo] + rest)[2..] == rest;
  }

  lemma HexOfByte(n: byte, rest: string)
    requires FromHex(rest).Some?
    ensures FromHex([HexDigit(n / 16), HexDigit(n % 16)] + rest) == Some([n] + FromHex(rest).value)
  {
    hide HexDigit, DigitValue, IsSpace, FromHex;
    HexDigits(n / 16);
    HexDigits(n % 16);
    FromHexPair(HexDigit(n / 16), HexDigit(n % 16), rest);
  }

  lemma {:induction false} HexRoundTrip(b: Bytes)
    ensures FromHex(Hex(b)) == Some(b)
  {
    hide HexDigit, DigitValue, IsSpace, FromHex;
    if b == [] {
      assert FromHex("") == Some([]) by { NoHex(); }
    } else {
      HexRoundTrip(b[1..]);
      HexOfByte(b[0], Hex(b[1..]));
      assert b == [b[0]] + b[1..];
    }
  }

  /** bytes.hex writes two lower-case digits for each byte. */
  lemma {:induction false} HexSpelled(b: Bytes, i: nat)
    requires i < |b|
    ensures |Hex(b)| == 2 * |b|
    ensures Hex(b)[2 * i] == "0123456789abcdef"[b[i] / 0x10] && Hex(b)[2 * i + 1] == "0123456789abcdef"[b[i] % 0x10]
  {
    if i > 0 {
      HexSpelled(b[1..], i - 1);
    } else if |b| > 1 {
      HexSpelled(b[1..], 0);
    }
  }

  /** One hexadecimal digit, of either case. */
  predicate IsDigit(c: char, n: nat) {
    n < 16 && (c == "0123456789abcdef"[n] || c == "0123456789ABCDEF"[n])
  }

  /** Text that says these bytes: two digits for each, white space before them and at the end. */
  predicate Says(s: string, b: Bytes)
    decreases |s|
  {
    if s == "" then b == []
    else if s[0] in " \t\n\r\U{B}\U{C}" then Says(s[1..], b)
    else |s| >= 2 && b != [] && IsDigit(s[0], b[0] / 0x10) && IsDigit(s[1], b[0] % 0x10) && Says(s[2..], b[1..])
  }

  lemma LowerDigit(n: nat)
    requires n < 16
    ensures "0123456789abcdef"[n] == (if n < 10 then '0' + n as char else 'a' + (n - 10) as char)
    ensures "0123456789ABCDEF"[n] == (if n < 10 then '0' + n as char else 'A' + (n - 10) as char)
  {
  }

  lemma DigitSpelled(c: char, n: nat)
    ensures DigitValue(c) == Some(n) <==> IsDigit(c, n)
  {
    if IsDigit(c, n) {
      LowerDigit(n);
    }
    if DigitValue(c).Some? {
      LowerDigit(DigitValue(c).value);
    }
  }

  lemma SpaceSpelled(c: char)
    ensures IsSpace(c) <==> c in " \t\n\r\U{B}\U{C}"
  {
    var spaces := " \t\n\r\U{B}\U{C}";
    assert spaces[0] == ' ' && spaces[1] == '\t' && spaces[2] == '\n' && spaces[3] == '\r';
    assert spaces[4] == 11 as char && spaces[5] == 12 as char;
  }

  lemma PairSpelled(s: string, b: Bytes)
    requires |s| >= 2 && !IsSpace(s[0])
    ensures FromHex(s) == Some(b) <==>
              b != [] && DigitValue(s[0]) == Some(b[0] / 0x10) && DigitValue(s[1]) == Some(b[0] % 0x10)
              && FromHex(s[2..]) == Some(b[1..])
    ensures b != [] ==>
              (DigitValue(s[0]) == Some(b[0] / 0x10) <==> IsDigit(s[0], b[0] / 0x10))
              && (DigitValue(s[1]) == Some(b[0] % 0x10) <==> IsDigit(s[1], b[0] % 0x10))
  {
    hide IsSpace, IsDigit;
    if b != [] {
      DigitSpelled(s[0], b[0] / 0x10);
      DigitSpelled(s[1], b[0] % 0x10);
      assert b == [b[0]] + b[1..];
    }
  }

  /** bytes.fromhex reads exactly that. */
  lemma {:induction false} FromHexSpelled(s: string, b: Bytes)
    ensures FromHex(s) == Some(b) <==> Says(s, b)
    decreases |s|
  {
    hide IsSpace, DigitValue, IsDigit;
    if s == "" {
    } else {
      SpaceSpelled(s[0]);
      if IsSpace(s[0]) {
        FromHexSpelled(s[1..], b);
      } else if |s| >= 2 {
        PairSpelled(s, b);
        if b != [] {
          FromHexSpelled(s[2..], b[1..]);
        }
      }
    }
  }

  // ---------------------------------------------------------------- JSON

  predicate IsBytesField(k: Key) {
    k == KData || k == KReason || k == KToken || k == KLocator || k == KMac || k == KRaw || k == KBytes
    || k == KNonceBytes || k == KLaneKey
  }

  function HexText(b: Bytes): Obj {
    Str(Chars(Hex(b)))
  }

  function EntriesToJson(entries: seq<Entry>): (r: seq<Entry>)
    ensures |r| == |entries|
    decreases entries
  {
    if entries == [] then []
    else [EntryToJson(entries[0])] + EntriesToJson(entries[1..])
  }

  function ItemsToJson(items: seq<Obj>): (r: seq<Obj>)
    ensures |r| == |items|
    decreases items
  {
    if items == [] then [] else [ToJson(items[0])] + ItemsToJson(items[1..])
  }

  /** to_json. */
  function ToJson(o: Obj): Obj
    decreases o, 0
  {
    match o
    case Raw(b) => HexText(b)
    case List(items) => List(ItemsToJson(items))
    case Dict(entries) => Dict(EntriesToJson(entries))
    case _ => o
  }

  function EntryToJson(e: Entry): Entry
    decreases e
  {
    Entry(e.key, ToJson(e.val))
  }

  /** bytes.fromhex of a value; None when it raises. */
  function BytesOfText(o: Obj): Option<Obj> {
    if o.Str? && o.text.Chars? then
      var b :- FromHex(o.text.s);
      Some(Raw(b))
    else None
  }

  predicate HasKey(entries: seq<Entry>, k: Key) {
    exists i :: 0 <= i < |entries| && entries[i].key == k
  }

  function MultipathPart(e: Entry): Option<Obj> {
    if e.key == KLocator || (e.key == KNonce && e.val.Str?) then BytesOfText(e.val) else Some(e.val)
  }

  /** A multipath value: its locator and its nonce come back as bytes, the rest is copied. */
  function MultipathFromJson(entries: seq<Entry>): Option<seq<Entry>> {
    if entries == [] then Some([])
    else
      var v :- MultipathPart(entries[0]);
      var rest :- MultipathFromJson(entries[1..]);
      Some([Entry(entries[0].key, v)] + rest)
  }

  function EntriesFromJson(entries: seq<Entry>): Option<seq<Entry>>
    decreases entries
  {
    if entries == [] then Some([])
    else
      var v :- ValueFromJson(entries[0]);
      var rest :- EntriesFromJson(entries[1..]);
      Some([Entry(entries[0].key, v)] + rest)
  }

  function ItemsFromJson(items: seq<Obj>): Option<seq<Obj>>
    decreases items
  {
    if items == [] then Some([])
    else
      var v :- FromJson(items[0]);
      var rest :- ItemsFromJson(items[1..]);
      Some([v] + rest)
  }

  /** from_json; None when it raises. */
  function FromJson(o: Obj): Option<Obj>
    decreases o, 0
  {
    match o
    case List(items) =>
      var r :- ItemsFromJson(items);
      Some(List(r))
    case Dict(entries) =>
      var r :- EntriesFromJson(entries);
      Some(Dict(r))
    case _ => Some(o)
  }

  function ValueFromJson(e: Entry): Option<Obj>
    decreases e
  {
    if IsBytesField(e.key) && e.val.Str? then BytesOfText(e.val)
    else if e.key == KValue && e.val.Dict? && HasKey(e.val.entries, KLocator) then
      if HasKey(e.val.entries, KNonce) then
        var m :- MultipathFromJson(e.val.entries);
        Some(Dict(m))
      else None
    else FromJson(e.val)
  }

  /** The keys under which from_json turns text into bytes. */
  lemma BytesKeys(k: Key, s: string)
    ensures ValueFromJson(Entry(k, Str(Chars(s)))) ==
              if k in {KData, KReason, KToken, KLocator, KMac, KRaw, KBytes, KNonceBytes, KLaneKey}
              then if FromHex(s).Some? then Some(Raw(FromHex(s).value)) else None
              else Some(Str(Chars(s)))
  {
    hide FromHex;
  }

  // ---------------------------------------------------------------- trees that JSON keeps

  /** No bytes anywhere, so that to_json changes nothing. */
  predicate Scalar(o: Obj) {
    o.Null? || o.Bool? || o.Num? || o.Str?
  }

  predicate SafePart(e: Entry) {
    if e.key == KLocator || e.key == KNonce then e.val.Raw? else Scalar(e.val)
  }

  /** A multipath value that survives: bytes exactly under its locator and its nonce. */
  predicate SafeMultipath(entries: seq<Entry>) {
    forall i :: 0 <= i < |entries| ==> SafePart(entries[i])
  }

  /** Bytes stand only under the keys that from_json turns back into bytes, and strings never
      under those. */
  predicate Safe(o: Obj)
    decreases o, 0
  {
    match o
    case Raw(_) => false
    case List(items) => forall i :: 0 <= i < |items| ==> Safe(items[i])
    case Dict(entries) => SafeEntries(entries)
    case _ => true
  }

  predicate SafeEntry(e: Entry)
    decreases e
  {
    if IsBytesField(e.key) then e.val.Raw?
    else if e.key == KValue && e.val.Dict? && HasKey(e.val.entries, KLocator)
    then HasKey(e.val.entries, KNonce) && SafeMultipath(e.val.entries)
    else Safe(e.val)
  }

  predicate SafeEntries(entries: seq<Entry>)
    decreases entries
  {
    forall i :: 0 <= i < |entries| ==> SafeEntry(entries[i])
  }

  lemma KeepsKey(e: Entry)
    ensures EntryToJson(e).key == e.key
  {
  }

  lemma SafeRest(entries: seq<Entry>)
    requires SafeEntries(entries) && entries != []
    ensures SafeEntry(entries[0]) && SafeEntries(entries[1..])
  {
    hide SafeEntry;
  }

  lemma {:induction false} EachToJson(entries: seq<Entry>)
    ensures forall i :: 0 <= i < |entries| ==> EntriesToJson(entries)[i].key == entries[i].key
  {
    hide ToJson;
    if entries == [] {
    } else {
      EachToJson(entries[1..]);
    }
  }

  lemma SameKeys(entries: seq<Entry>, k: Key)
    ensures HasKey(EntriesToJson(entries), k) <==> HasKey(entries, k)
  {
    hide EntriesToJson;
    EachToJson(entries);
    if HasKey(entries, k) {
      var i :| 0 <= i < |entries| && entries[i].key == k;
      assert EntriesToJson(entries)[i].key == k;
    }
  }

  lemma SafeParts(entries: seq<Entry>)
    requires SafeMultipath(entries) && entries != []
    ensures SafePart(entries[0]) && SafeMultipath(entries[1..])
  {
    hide SafePart;
  }

  lemma MultipathPartRoundTrip(e: Entry)
    requires SafePart(e)
    ensures MultipathPart(EntryToJson(e)) == Some(e.val) && EntryToJson(e).key == e.key
  {
    hide Hex, FromHex;
    if e.val.Raw? {
      HexRoundTrip(e.val.bytes);
    }
  }

  lemma {:induction false} MultipathRoundTrip(entries: seq<Entry>)
    requires SafeMultipath(entries)
    ensures MultipathFromJson(EntriesToJson(entries)) == Some(entries)
  {
    hide MultipathPart, EntryToJson, SafeMultipath;
    if entries == [] {
    } else {
      SafeParts(entries);
      MultipathPartRoundTrip(entries[0]);
      MultipathRoundTrip(entries[1..]);
      var r := EntriesToJson(entries);
      assert r[0] == EntryToJson(entries[0]) && r[1..] == EntriesToJson(entries[1..]);
      assert entries == [entries[0]] + entries[1..];
    }
  }

  lemma {:induction false} EntriesRoundTrip(entries: seq<Entry>)
    requires SafeEntries(entries)
    ensures EntriesFromJson(EntriesToJson(entries)) == Some(entries)
    decreases entries
  {
    hide ValueFromJson, EntryToJson, FromJson, ToJson, SafeEntry, SafeEntries;
    if entries == [] {
    } else {
      SafeRest(entries);
      EntryRoundTrip(entries[0]);
      EntriesRoundTrip(entries[1..]);
      KeepsKey(entries[0]);
      var r := EntriesToJson(entries);
      assert r[0] == EntryToJson(entries[0]) && r[1..] == EntriesToJson(entries[1..]);
      assert entries == [entries[0]] + entries[1..];
    }
  }

  lemma {:induction false} ItemsRoundTrip(items: seq<Obj>)
    requires forall i :: 0 <= i < |items| ==> Safe(items[i])
    ensures ItemsFromJson(ItemsToJson(items)) == Some(items)
    decreases items
  {
    if items == [] {
    } else {
      JsonRoundTrip(items[0]);
      ItemsRoundTrip(items[1..]);
      assert ItemsToJson(items)[1..] == ItemsToJson(items[1..]);
      assert items == [items[0]] + items[1..];
    }
  }

  /** The JSON form of a safe tree reads back as the tree. */
  lemma {:induction false} JsonRoundTrip(o: Obj)
    requires Safe(o)
    ensures FromJson(ToJson(o)) == Some(o)
    decreases o, 0
  {
    match o
    case List(items) => ItemsRoundTrip(items);
    case Dict(entries) => EntriesRoundTrip(entries);
    case _ =>
  }

  lemma {:induction false} EntryRoundTrip(e: Entry)
    requires SafeEntry(e)
    ensures ValueFromJson(EntryToJson(e)) == Some(e.val)
    decreases e
  {
    hide Hex, FromHex, HasKey, IsBytesField;
    if IsBytesField(e.key) {
      HexRoundTrip(e.val.bytes);
    } else if e.key == KValue && e.val.Dict? && HasKey(e.val.entries, KLocator) {
      SameKeys(e.val.entries, KLocator);
      SameKeys(e.val.entries, KNonce);
      MultipathRoundTrip(e.val.entries);
    } else {
      JsonRoundTrip(e.val);
      if e.val.Dict? {
        SameKeys(e.val.entries, KLocator);
      }
    }
  }

  // ---------------------------------------------------------------- what JSON holds

  predicate NoValueBytes(e: Entry)
    decreases e
  {
    NoBytes(e.val)
  }

  predicate NoEntryBytes(entries: seq<Entry>)
    decreases entries
  {
    forall i :: 0 <= i < |entries| ==> NoValueBytes(entries[i])
  }

  /** No bytes anywhere: a tree that JSON can hold. */
  predicate NoBytes(o: Obj)
    decreases o, 0
  {
    match o
    case Raw(_) => false
    case List(items) => forall i :: 0 <= i < |items| ==> NoBytes(items[i])
    case Dict(entries) => NoEntryBytes(entries)
    case _ => true
  }

  lemma {:induction false} ItemsHaveNoBytes(items: seq<Obj>)
    ensures forall i :: 0 <= i < |items| ==> NoBytes(ItemsToJson(items)[i])
    decreases items
  {
    hide NoBytes, ToJson;
    if items == [] {
    } else {
      ToJsonHasNoBytes(items[0]);
      ItemsHaveNoBytes(items[1..]);
    }
  }

  lemma {:induction false} EntryHasNoBytes(e: Entry)
    ensures NoValueBytes(EntryToJson(e))
    decreases e
  {
    ToJsonHasNoBytes(e.val);
  }

  lemma {:induction false} EntriesHaveNoBytes(entries: seq<Entry>)
    ensures NoEntryBytes(EntriesToJson(entries))
    decreases entries
  {
    hide NoValueBytes, EntryToJson;
    if entries == [] {
    } else {
      EntryHasNoBytes(entries[0]);
      EntriesHaveNoBytes(entries[1..]);
    }
  }

  /** to_json leaves no bytes. */
  lemma {:induction false} ToJsonHasNoBytes(o: Obj)
    ensures NoBytes(ToJson(o))
    decreases o, 0
  {
    match o
    case List(items) => ItemsHaveNoBytes(items);
    case Dict(entries) => EntriesHaveNoBytes(entries);
    case _ =>
  }

  /** The entry of a multipath value is text that must be hexadecimal. */
  predicate IsHexPart(e: Entry) {
    e.key == KLocator || (e.key == KNonce && e.val.Str?)
  }

  lemma PartSpelled(e: Entry)
    ensures IsHexPart(e) ==>
              MultipathPart(e) ==
                if e.val.Str? && e.val.text.Chars? && FromHex(e.val.text.s).Some?
                then Some(Raw(FromHex(e.val.text.s).value)) else None
    ensures !IsHexPart(e) ==> MultipathPart(e) == Some(e.val)
  {
    hide FromHex;
  }

  /** from_json of a dict with a locator under "value": the locator and a nonce that is text come
      back as bytes, or raise; everything else comes back as it is. */
  lemma {:induction false} MultipathSpelled(entries: seq<Entry>)
    ensures MultipathFromJson(entries).Some? <==>
              forall i :: 0 <= i < |entries| && IsHexPart(entries[i]) ==>
                entries[i].val.Str? && entries[i].val.text.Chars? && FromHex(entries[i].val.text.s).Some?
    ensures MultipathFromJson(entries).Some? ==>
              && |MultipathFromJson(entries).value| == |entries|
              && forall i :: 0 <= i < |entries| ==>
                   MultipathFromJson(entries).value[i] ==
                     if IsHexPart(entries[i])
                     then Entry(entries[i].key, Raw(FromHex(entries[i].val.text.s).value)) else entries[i]
  {
    hide FromHex, MultipathPart;
    if entries == [] {
    } else {
      PartSpelled(entries[0]);
      MultipathSpelled(entries[1..]);
      assert entries == [entries[0]] + entries[1..];
    }
  }

  lemma MultipathUnderValue(entries: seq<Entry>)
    requires HasKey(entries, KLocator)
    ensures ValueFromJson(Entry(KValue, Dict(entries))) ==
              if !HasKey(entries, KNonce) || MultipathFromJson(entries).None? then None
              else Some(Dict(MultipathFromJson(entries).value))
  {
    hide HasKey, MultipathFromJson;
  }

  // ---------------------------------------------------------------- the dict of a decoded frame

  function Flag(k: Key, b: bool): Entry {
    Entry(k, Bool(b))
  }

  function Int(k: Key, n: int): Entry {
    Entry(k, Num(n))
  }

  function ValueObj(v: TpValue): Obj {
    match v
    case VarintValue(n) => Num(n)
    case NoValue => Null
    case RoleValue(Initiator) => Dict([Entry(KRole, Str(RoleText(InitiatorTag)))])
    case RoleValue(Responder) => Dict([Entry(KRole, Str(RoleText(ResponderTag)))])
    case RoleValue(Auto(nonce)) => Dict([Entry(KRole, Str(RoleText(AutoTag))), Int(KNonce, nonce)])
    case MultipathValue(flags, nonce, locator) =>
      Dict([Int(KFlags, flags), Entry(KNonce, Raw(nonce)), Entry(KLocator, Raw(locator))])
    case LanesValue(maxLanes, laneKey) => Dict([Int(KMaxLanes, maxLanes), Entry(KLaneKey, Raw(laneKey))])
  }

  function ParamObj(p: Param): Obj {
    match p
    case Known(name, value) => Dict([Entry(KId, Str(ParamText(name))), Entry(KValue, ValueObj(value))])
    case Opaque(id, raw) => Dict([Int(KId, id), Entry(KRaw, Raw(raw))])
  }

  function ParamObjs(ps: seq<Param>): (r: seq<Obj>)
    ensures |r| == |ps| && forall i :: 0 <= i < |ps| ==> r[i] == ParamObj(ps[i])
  {
    if ps == [] then [] else [ParamObj(ps[0])] + ParamObjs(ps[1..])
  }

  function AckObj(e: AckEntry): Obj {
    Dict([Int(KPipe, e.pipe), Int(KLane, e.lane), Int(KPosition, e.position), Int(KDelay, e.delay)])
  }

  function AckObjs(es: seq<AckEntry>): (r: seq<Obj>)
    ensures |r| == |es| && forall i :: 0 <= i < |es| ==> r[i] == AckObj(es[i])
  {
    if es == [] then [] else [AckObj(es[0])] + AckObjs(es[1..])
  }

  function OptFlag(k: Key, b: Option<bool>): seq<Entry> {
    if b.Some? then [Flag(k, b.value)] else []
  }

  /** The keys after "type", in the order in which decode_frame fills them in. */
  function FrameEntries(f: Frame): seq<Entry>
    requires !f.Repeat?
  {
    match f
    case Padding(n) => [Int(KCount, n)]
    case ResetStream(id, code, finalSize) => [Int(KId, id), Int(KCode, code), Int(KFinalSize, finalSize)]
    case ResetStreamAt(id, code, finalSize, reliableSize) =>
      [Int(KId, id), Int(KCode, code), Int(KFinalSize, finalSize), Int(KReliableSize, reliableSize)]
    case StopSending(id, code) => [Int(KId, id), Int(KCode, code)]
    case Stream(id, off, hasOff, hasLen, fin, data) =>
      [Int(KId, id), Int(KOff, off), Entry(KData, Raw(data)), Flag(KFin, fin)]
      + OptFlag(KHasOff, hasOff) + OptFlag(KHasLen, hasLen)
    case MaxData(max) => [Int(KMax, max)]
    case MaxStreamData(id, max) => [Int(KId, id), Int(KMax, max)]
    case MaxStreams(bidi, max) => [Flag(KBidi, bidi), Int(KMax, max)]
    case DataBlocked(limit) => [Int(KLimit, limit)]
    case StreamDataBlocked(id, limit) => [Int(KId, id), Int(KLimit, limit)]
    case StreamsBlocked(bidi, limit) => [Flag(KBidi, bidi), Int(KLimit, limit)]
    case ConnectionClose(app, code, frameType, reason) =>
      [Flag(KApp, app), Int(KCode, code)]
      + (if frameType.Some? then [Int(KFrameType, frameType.value)] else []) + [Entry(KReason, Raw(reason))]
    case Datagram(hasLen, data) => OptFlag(KHasLen, hasLen) + [Entry(KData, Raw(data))]
    case QxTransportParameters(params) => [Entry(KParams, List(ParamObjs(params)))]
    case QxPing(response, seqno) => [Flag(KResponse, response), Int(KSeq, seqno)]
    case Goaway(maxBidi, maxUni, code) => [Int(KMaxBidi, maxBidi), Int(KMaxUni, maxUni), Int(KCode, code)]
    case PriorityUpdate(id, seqno, urgency, incremental) =>
      [Int(KId, id), Int(KSeq, seqno), Int(KUrgency, urgency), Flag(KIncremental, incremental)]
    case PipeJoin(j) =>
      [Entry(KLocator, Raw(j.locator)), Int(KPipe, j.pipe), Entry(KDirection, Str(DirectionText(j.direction))),
       Flag(KCarrierBound, j.carrierBound), Flag(KStandby, j.standby), Int(KFateGroup, j.fateGroup),
       Int(KPriority, j.priority), Entry(KToken, Raw(j.token))]
    case PipeAck(es) => [Entry(KAckEntries, List(AckObjs(es)))]
    case PipeLane(laneKey, pipe, lane) => [Entry(KLaneKey, Raw(laneKey)), Int(KPipe, pipe), Int(KLane, lane)]
    case PipePing => []
    case PipeAbandon(pipe, code) => [Int(KPipe, pipe), Int(KCode, code)]
    case PipeStatus(pipe, seqno, status, priority) =>
      [Int(KPipe, pipe), Int(KSeq, seqno), Int(KPriority, priority), Entry(KStatus, Str(StatusText(status)))]
  }

  function FrameDict(f: Frame): Obj
    requires !f.Repeat?
  {
    Dict([Entry(KType, Str(FrameText(KindOf(f))))] + FrameEntries(f))
  }

  function FrameDicts(fs: seq<Frame>): (r: seq<Obj>)
    requires forall i :: 0 <= i < |fs| ==> !fs[i].Repeat?
    ensures |r| == |fs| && forall i :: 0 <= i < |fs| ==> r[i] == FrameDict(fs[i])
  {
    if fs == [] then [] else [FrameDict(fs[0])] + FrameDicts(fs[1..])
  }

  /** A value that stands for itself in JSON. */
  predicate Plain(e: Entry) {
    !IsBytesField(e.key) && Scalar(e.val)
  }

  /** Entries that are plain, or bytes under a bytes key. */
  predicate PlainOrBytes(entries: seq<Entry>) {
    forall i :: 0 <= i < |entries| ==> Plain(entries[i]) || (IsBytesField(entries[i].key) && entries[i].val.Raw?)
  }

  lemma PlainEntryIsSafe(e: Entry)
    requires Plain(e) || (IsBytesField(e.key) && e.val.Raw?)
    ensures SafeEntry(e)
  {
  }

  lemma PlainIsSafe(entries: seq<Entry>)
    requires PlainOrBytes(entries)
    ensures SafeEntries(entries)
  {
    hide IsBytesField;
    forall i | 0 <= i < |entries| ensures SafeEntry(entries[i]) {
      PlainEntryIsSafe(entries[i]);
    }
  }

  lemma TwoSafeEntries(a: Entry, b: Entry)
    requires SafeEntry(a) && SafeEntry(b)
    ensures SafeEntries([a, b])
  {
    hide SafeEntry;
  }

  lemma NoLocator(es: seq<Entry>)
    requires PlainOrBytes(es) && !HasKey(es, KLocator)
    ensures SafeEntry(Entry(KValue, Dict(es)))
  {
    PlainIsSafe(es);
    hide PlainOrBytes, SafeEntries;
  }

  lemma RoleSafe(role: Role)
    ensures SafeEntry(Entry(KValue, ValueObj(RoleValue(role))))
  {
    hide SafeEntry;
    NoLocator(ValueObj(RoleValue(role)).entries);
  }

  lemma MultipathSafe(flags: int, nonce: Bytes, locator: Bytes)
    ensures SafeEntry(Entry(KValue, ValueObj(MultipathValue(flags, nonce, locator))))
  {
    hide SafeEntries;
    var es := [Int(KFlags, flags), Entry(KNonce, Raw(nonce)), Entry(KLocator, Raw(locator))];
    assert es[2].key == KLocator && es[1].key == KNonce;
    assert SafePart(es[0]) && SafePart(es[1]) && SafePart(es[2]);
  }

  lemma ValueSafe(value: TpValue)
    ensures SafeEntry(Entry(KValue, ValueObj(value)))
  {
    hide SafeEntries, SafeMultipath, SafeEntry;
    match value
    case MultipathValue(flags, nonce, locator) => MultipathSafe(flags, nonce, locator);
    case RoleValue(role) => RoleSafe(role);
    case LanesValue(_, _) => NoLocator(ValueObj(value).entries);
    case VarintValue(_) => PlainEntryIsSafe(Entry(KValue, ValueObj(value)));
    case NoValue => PlainEntryIsSafe(Entry(KValue, ValueObj(value)));
  }

  lemma ParamSafe(p: Param)
    ensures Safe(ParamObj(p))
  {
    hide SafeEntries, ValueObj, SafeEntry;
    match p
    case Opaque(id, raw) => PlainIsSafe([Int(KId, id), Entry(KRaw, Raw(raw))]);
    case Known(name, value) =>
      ValueSafe(value);
      PlainEntryIsSafe(Entry(KId, Str(ParamText(name))));
      TwoSafeEntries(Entry(KId, Str(ParamText(name))), Entry(KValue, ValueObj(value)));
  }

  lemma AckSafe(e: AckEntry)
    ensures Safe(AckObj(e))
  {
    PlainIsSafe(AckObj(e).entries);
  }

  lemma TwoEntries(kind: FrameKind, k: Key, items: seq<Obj>)
    requires !IsBytesField(k) && (forall i :: 0 <= i < |items| ==> Safe(items[i]))
    ensures SafeEntries([Entry(KType, Str(FrameText(kind)))] + [Entry(k, List(items))])
  {
    var es := [Entry(KType, Str(FrameText(kind)))] + [Entry(k, List(items))];
    assert Safe(List(items));
    assert SafeEntry(es[0]) && SafeEntry(es[1]);
  }

  lemma BlockSafe(f: Frame)
    requires f.QxTransportParameters?
    ensures Safe(FrameDict(f))
  {
    hide SafeEntries, ParamObj;
    forall i | 0 <= i < |f.params| ensures Safe(ParamObjs(f.params)[i]) {
      ParamSafe(f.params[i]);
    }
    TwoEntries(KindOf(f), KParams, ParamObjs(f.params));
  }

  lemma AcksSafe(f: Frame)
    requires f.PipeAck?
    ensures Safe(FrameDict(f))
  {
    hide SafeEntries, AckObj;
    forall i | 0 <= i < |f.entries| ensures Safe(AckObjs(f.entries)[i]) {
      AckSafe(f.entries[i]);
    }
    TwoEntries(KindOf(f), KAckEntries, AckObjs(f.entries));
  }

  lemma DictSafe(entries: seq<Entry>)
    requires PlainOrBytes(entries)
    ensures Safe(Dict(entries))
  {
    hide PlainOrBytes, SafeEntries;
    PlainIsSafe(entries);
  }

  lemma PlainCons(e: Entry, entries: seq<Entry>)
    requires Plain(e) && PlainOrBytes(entries)
    ensures PlainOrBytes([e] + entries)
  {
    hide Plain, IsBytesField;
  }

  lemma JoinPlain(f: Frame)
    requires f.PipeJoin?
    ensures PlainOrBytes(FrameEntries(f))
  {
  }

  lemma CorePlain(f: Frame)
    requires !f.Repeat? && IsCore(KindOf(f))
    ensures PlainOrBytes(FrameEntries(f))
  {
  }

  lemma ControlPlain(f: Frame)
    requires !f.Repeat? && IsControl(KindOf(f))
    ensures PlainOrBytes(FrameEntries(f))
  {
  }

  lemma OthersPlain(f: Frame)
    requires f.Stream? || f.ConnectionClose? || f.Datagram? || f.PriorityUpdate? || f.PipeLane? || f.Padding?
    ensures PlainOrBytes(FrameEntries(f))
  {
  }

  lemma FramePlain(f: Frame)
    requires !f.Repeat? && !f.QxTransportParameters? && !f.PipeAck?
    ensures PlainOrBytes(FrameDict(f).entries)
  {
    hide FrameEntries, PlainOrBytes;
    if f.PipeJoin? {
      JoinPlain(f);
    } else if IsCore(KindOf(f)) {
      CorePlain(f);
    } else if IsControl(KindOf(f)) {
      ControlPlain(f);
    } else {
      OthersPlain(f);
    }
    PlainCons(Entry(KType, Str(FrameText(KindOf(f)))), FrameEntries(f));
  }

  lemma FrameSafe(f: Frame)
    requires !f.Repeat?
    ensures Safe(FrameDict(f))
  {
    hide KindOf, SafeEntries, FrameEntries, Safe;
    if f.QxTransportParameters? {
      BlockSafe(f);
    } else if f.PipeAck? {
      AcksSafe(f);
    } else {
      FramePlain(f);
      DictSafe(FrameDict(f).entries);
    }
  }

  lemma ListSafe(items: seq<Obj>)
    requires forall i :: 0 <= i < |items| ==> Safe(items[i])
    ensures Safe(List(items))
  {
  }

  /** The JSON form is lossless: every list of frames the decoder can return, transport
      parameters with their nested values included, reads back from JSON as it was. */
  lemma FramesSurviveJson(fs: seq<Frame>)
    requires forall i :: 0 <= i < |fs| ==> !fs[i].Repeat?
    ensures FromJson(ToJson(List(FrameDicts(fs)))) == Some(List(FrameDicts(fs)))
  {
    hide FrameDict, Safe;
    forall i | 0 <= i < |fs| ensures Safe(FrameDicts(fs)[i]) {
      FrameSafe(fs[i]);
    }
    assert Safe(List(FrameDicts(fs))) by { ListSafe(FrameDicts(fs)); }
    JsonRoundTrip(List(FrameDicts(fs)));
  }
}
