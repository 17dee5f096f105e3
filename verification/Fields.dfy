/** The grammar of frame bodies: a body is a list of fields, each of one of seven wire
    forms. Parsing and printing are inverse for every list of fields, so a frame kind only
    has to say which fields it has. */
module Fields {
  import opened Base
  import opened Varint

  /** One entry of a PIPE_ACK frame. */
  datatype AckEntry = AckEntry(pipe: int, lane: int, position: int, delay: int)

  datatype FieldKind =
    | KVarint            // a variable-length integer
    | KByte              // one byte
    | KFixed(n: nat)     // n bytes
    | KVarBytes          // a varint length and that many bytes
    | KByteBytes         // a one-byte length and that many bytes
    | KRest              // the bytes up to the end of the record
    | KEntries           // a varint count and that many entries of four varints

  datatype Shape = End | Then(head: FieldKind, tail: Shape)

  datatype Field =
    | FVarint(v: int)
    | FByte(b: int)
    | FFixed(bs: Bytes)
    | FVarBytes(bs: Bytes)
    | FByteBytes(bs: Bytes)
    | FRest(bs: Bytes)
    | FEntries(es: seq<AckEntry>)

  datatype FieldList = FNil | FCons(head: Field, tail: FieldList)

  // ---------------------------------------------------------------- printing

  predicate EntryInRange(e: AckEntry) {
    IsVarint(e.pipe) && IsVarint(e.lane) && IsVarint(e.position) && IsVarint(e.delay)
  }

  predicate EntriesInRange(es: seq<AckEntry>) {
    forall i :: 0 <= i < |es| ==> EntryInRange(es[i])
  }

  /** The encoder writes the field without raising. */
  predicate Printable(f: Field) {
    match f
    case FVarint(v) => IsVarint(v)
    case FByte(b) => 0 <= b < 256
    case FVarBytes(bs) => IsVarint(|bs|)
    case FByteBytes(bs) => |bs| < 256
    case FEntries(es) => IsVarint(|es|) && EntriesInRange(es)
    case _ => true
  }

  predicate AllPrintable(fs: FieldList) {
    fs.FCons? ==> Printable(fs.head) && AllPrintable(fs.tail)
  }

  function PrintEntry(e: AckEntry): Bytes
    requires EntryInRange(e)
  {
    EncV(e.pipe) + (EncV(e.lane) + (EncV(e.position) + EncV(e.delay)))
  }

  function PrintEntries(es: seq<AckEntry>): Bytes
    requires EntriesInRange(es)
  {
    if es == [] then [] else PrintEntry(es[0]) + PrintEntries(es[1..])
  }

  function PrintField(f: Field): Bytes
    requires Printable(f)
  {
    match f
    case FVarint(v) => EncV(v)
    case FByte(b) => [b]
    case FFixed(bs) => bs
    case FVarBytes(bs) => EncV(|bs|) + bs
    case FByteBytes(bs) => [|bs|] + bs
    case FRest(bs) => bs
    case FEntries(es) => EncV(|es|) + PrintEntries(es)
  }

  function Print(fs: FieldList): Bytes
    requires AllPrintable(fs)
  {
    if fs.FNil? then [] else PrintField(fs.head) + Print(fs.tail)
  }

  lemma FixedPrint(bs: Bytes)
    ensures PrintField(FFixed(bs)) == bs
  {
  }

  /** Printing after bytes already written, the way the encoders append to `out`. */
  function PrintOnto(out: Bytes, fs: FieldList): (r: Bytes)
    requires AllPrintable(fs)
    ensures r == out + Print(fs)
    decreases fs
  {
    if fs.FNil? then out
    else
      assert out + PrintField(fs.head) + Print(fs.tail) == out + (PrintField(fs.head) + Print(fs.tail));
      PrintOnto(out + PrintField(fs.head), fs.tail)
  }

  // ---------------------------------------------------------------- parsing

  function ParseEntry(b: Bytes): (r: Option<(AckEntry, nat)>)
    ensures r.Some? ==> 4 <= r.value.1 <= |b| && EntryInRange(r.value.0)
  {
    var (pipe, n0) :- DecV(b);
    var (lane, n1) :- DecV(b[n0..]);
    var (position, n2) :- DecV(b[n0 + n1..]);
    var (delay, n3) :- DecV(b[n0 + n1 + n2..]);
    Some((AckEntry(pipe, lane, position, delay), n0 + n1 + n2 + n3))
  }

  function ParseEntries(n: nat, b: Bytes): (r: Option<(seq<AckEntry>, nat)>)
    ensures r.Some? ==> r.value.1 <= |b| && |r.value.0| == n && EntriesInRange(r.value.0)
  {
    if n == 0 then Some(([], 0))
    else
      var (e, k) :- ParseEntry(b);
      var (es, m) :- ParseEntries(n - 1, b[k..]);
      Some(([e] + es, k + m))
  }

  function ParseField(k: FieldKind, b: Bytes): (r: Option<(Field, nat)>)
    ensures r.Some? ==> r.value.1 <= |b|
  {
    match k
    case KVarint =>
      var (v, n) :- DecV(b);
      Some((FVarint(v), n))
    case KByte => if b == [] then None else Some((FByte(b[0]), 1))
    case KFixed(n) => if |b| < n then None else Some((FFixed(b[..n]), n))
    case KVarBytes =>
      var (len, n) :- DecV(b);
      if |b| < n + len then None else Some((FVarBytes(b[n..n + len]), n + len))
    case KByteBytes =>
      if b == [] then None
      else
        var len: nat := b[0];
        if |b| < 1 + len then None else Some((FByteBytes(b[1..1 + len]), 1 + len))
    case KRest => Some((FRest(b), |b|))
    case KEntries =>
      var (count, n) :- DecV(b);
      var (es, m) :- ParseEntries(count, b[n..]);
      Some((FEntries(es), n + m))
  }

  /** A field in front of what parsing the rest of the shape gives. */
  function Prepend(f: Field, n: nat, rest: Option<(FieldList, nat)>): Option<(FieldList, nat)> {
    if rest.None? then None else Some((FCons(f, rest.value.0), n + rest.value.1))
  }

  function Parse(s: Shape, b: Bytes): (r: Option<(FieldList, nat)>)
    ensures r.Some? ==> r.value.1 <= |b|
    decreases s
  {
    if s.End? then Some((FNil, 0))
    else
      var (f, n) :- ParseField(s.head, b);
      Prepend(f, n, Parse(s.tail, b[n..]))
  }

  // ---------------------------------------------------------------- inverse in one direction

  lemma EndParse(b: Bytes)
    ensures Parse(End, b) == Some((FNil, 0))
  {
  }

  predicate HasKind(k: FieldKind, f: Field) {
    match k
    case KVarint => f.FVarint?
    case KByte => f.FByte?
    case KFixed(n) => f.FFixed? && |f.bs| == n
    case KVarBytes => f.FVarBytes?
    case KByteBytes => f.FByteBytes?
    case KRest => f.FRest?
    case KEntries => f.FEntries?
  }

  predicate HasShape(s: Shape, fs: FieldList) {
    match (s, fs)
    case (End, FNil) => true
    case (Then(k, t), FCons(f, g)) => HasKind(k, f) && HasShape(t, g)
    case _ => false
  }

  /** The shape reads up to the end of the record, so nothing may follow it. */
  predicate OpenEnded(s: Shape) {
    s.Then? && (s.head.KRest? || OpenEnded(s.tail))
  }

  lemma FourParts(p: Bytes, l: Bytes, q: Bytes, d: Bytes, tail: Bytes)
    ensures var b := p + (l + (q + d)) + tail;
            && b == p + (l + (q + (d + tail)))
            && b[|p|..] == l + (q + (d + tail))
            && b[|p| + |l|..] == q + (d + tail)
            && b[|p| + |l| + |q|..] == d + tail
  {
    var b := p + (l + (q + (d + tail)));
    assert p + (l + (q + d)) + tail == b;
    AppendDrop(p, l + (q + (d + tail)));
    AppendDrop(l, q + (d + tail));
    AppendDrop(q, d + tail);
    DropDrop(b, |p|, |l|);
    DropDrop(b, |p| + |l|, |q|);
  }

  lemma ParsePrintEntry(e: AckEntry, tail: Bytes)
    requires EntryInRange(e)
    ensures ParseEntry(PrintEntry(e) + tail) == Some((e, |PrintEntry(e)|))
  {
    hide DecV, EncV;
    var p, l, q, d := EncV(e.pipe), EncV(e.lane), EncV(e.position), EncV(e.delay);
    var b := PrintEntry(e) + tail;
    FourParts(p, l, q, d, tail);
    DecodeEncode(e.pipe, l + (q + (d + tail)));
    DecodeEncode(e.lane, q + (d + tail));
    DecodeEncode(e.position, d + tail);
    DecodeEncode(e.delay, tail);
  }

  lemma {:induction false} ParsePrintEntries(es: seq<AckEntry>, tail: Bytes)
    requires EntriesInRange(es)
    ensures ParseEntries(|es|, PrintEntries(es) + tail) == Some((es, |PrintEntries(es)|))
  {
    hide DecV, EncV, ParseEntry, PrintEntry;
    if es == [] {
    } else {
      var head, rest := PrintEntry(es[0]), PrintEntries(es[1..]);
      assert PrintEntries(es) + tail == head + (rest + tail);
      assert es == [es[0]] + es[1..];
      assert (head + (rest + tail))[|head|..] == rest + tail;
      ParsePrintEntry(es[0], rest + tail);
      ParsePrintEntries(es[1..], tail);
    }
  }

  lemma ParsePrintEntriesField(es: seq<AckEntry>, tail: Bytes)
    requires Printable(FEntries(es))
    ensures ParseField(KEntries, PrintField(FEntries(es)) + tail) ==
              Some((FEntries(es), |PrintField(FEntries(es))|))
  {
    hide DecV, EncV, ParseEntries, PrintEntries;
    var count := EncV(|es|);
    assert PrintField(FEntries(es)) + tail == count + (PrintEntries(es) + tail);
    DecodeEncode(|es|, PrintEntries(es) + tail);
    ParsePrintEntries(es, tail);
  }

  lemma LengthPrefixed(bs: Bytes, tail: Bytes)
    requires IsVarint(|bs|)
    ensures var len := EncV(|bs|); var b := len + bs + tail;
            DecV(b) == Some((|bs|, |len|)) && b[|len|..|len| + |bs|] == bs
  {
    hide DecV, EncV;
    assert EncV(|bs|) + bs + tail == EncV(|bs|) + (bs + tail);
    DecodeEncode(|bs|, bs + tail);
  }

  lemma ParsePrintField(k: FieldKind, f: Field, tail: Bytes)
    requires HasKind(k, f) && Printable(f)
    requires k.KRest? ==> tail == []
    ensures ParseField(k, PrintField(f) + tail) == Some((f, |PrintField(f)|))
  {
    hide DecV, EncV, ParseEntries, PrintEntries;
    var b := PrintField(f) + tail;
    match f
    case FVarint(v) => DecodeEncode(v, tail);
    case FVarBytes(bs) => LengthPrefixed(bs, tail);
    case FEntries(es) => ParsePrintEntriesField(es, tail);
    case FFixed(bs) => assert b[..|bs|] == bs;
    case FByteBytes(bs) => assert b[1..1 + |bs|] == bs;
    case FRest(bs) => assert b == bs;
    case FByte(_) =>
  }

  /** A field up to the end of the record is the last of its shape. */
  predicate OpenOnlyLast(s: Shape) {
    s.Then? ==> (s.head.KRest? ==> s.tail.End?) && OpenOnlyLast(s.tail)
  }

  /** Printed fields read back as they were, and parsing stops where they end. */
  lemma {:induction false} ParsePrint(s: Shape, fs: FieldList, tail: Bytes)
    requires HasShape(s, fs) && AllPrintable(fs)
    requires OpenEnded(s) ==> tail == [] && OpenOnlyLast(s)
    ensures Parse(s, Print(fs) + tail) == Some((fs, |Print(fs)|))
  {
    hide ParseField, PrintField, DecV, EncV, HasKind;
    if s.Then? {
      var head, rest := PrintField(fs.head), Print(fs.tail);
      AppendAssoc(head, rest, tail);
      AppendDrop(head, rest + tail);
      assert s.head.KRest? ==> rest + tail == [];
      ParsePrintField(s.head, fs.head, rest + tail);
      ParsePrint(s.tail, fs.tail, tail);
      assert Parse(s, head + (rest + tail)) == Prepend(fs.head, |head|, Parse(s.tail, rest + tail));
    }
  }

  // ---------------------------------------------------------------- and in the other

  lemma Pieces(b: Bytes, n0: nat, n1: nat, n2: nat, n3: nat)
    requires n0 + n1 + n2 + n3 <= |b|
    ensures b[..n0 + n1 + n2 + n3]
         == b[..n0] + (b[n0..][..n1] + (b[n0 + n1..][..n2] + b[n0 + n1 + n2..][..n3]))
  {
  }

  lemma EntryShrinks(b: Bytes)
    requires ParseEntry(b).Some?
    ensures var (e, n) := ParseEntry(b).value; Shrinks(PrintEntry(e), b[..n])
  {
    hide DecV, EncV;
    var (p, n0) := DecV(b).value;
    var (l, n1) := DecV(b[n0..]).value;
    var (q, n2) := DecV(b[n0 + n1..]).value;
    var (d, n3) := DecV(b[n0 + n1 + n2..]).value;
    var b0, b1, b2, b3 := b[..n0], b[n0..][..n1], b[n0 + n1..][..n2], b[n0 + n1 + n2..][..n3];
    DecodeIsEncode(b);
    DecodeIsEncode(b[n0..]);
    DecodeIsEncode(b[n0 + n1..]);
    DecodeIsEncode(b[n0 + n1 + n2..]);
    ShrinksConcat(EncV(q), b2, EncV(d), b3);
    ShrinksConcat(EncV(l), b1, EncV(q) + EncV(d), b2 + b3);
    ShrinksConcat(EncV(p), b0, EncV(l) + (EncV(q) + EncV(d)), b1 + (b2 + b3));
    Pieces(b, n0, n1, n2, n3);
  }

  lemma {:induction false} EntriesShrink(n: nat, b: Bytes)
    requires ParseEntries(n, b).Some?
    ensures var (es, m) := ParseEntries(n, b).value; Shrinks(PrintEntries(es), b[..m])
  {
    hide ParseEntry, PrintEntry;
    if n == 0 {
    } else {
      var (e, k) := ParseEntry(b).value;
      var (es, m) := ParseEntries(n - 1, b[k..]).value;
      EntryShrinks(b);
      EntriesShrink(n - 1, b[k..]);
      ShrinksConcat(PrintEntry(e), b[..k], PrintEntries(es), b[k..][..m]);
      assert b[..k + m] == b[..k] + b[k..][..m];
      assert ([e] + es)[1..] == es;
    }
  }

  lemma EntriesFieldShrinks(b: Bytes)
    requires ParseField(KEntries, b).Some?
    ensures var (f, n) := ParseField(KEntries, b).value;
            f.FEntries? && Printable(f) && Shrinks(PrintField(f), b[..n])
  {
    hide DecV, EncV, ParseEntries, PrintEntries;
    var (count, w) := DecV(b).value;
    var (es, m) := ParseEntries(count, b[w..]).value;
    DecodeIsEncode(b);
    EntriesShrink(count, b[w..]);
    ShrinksConcat(EncV(count), b[..w], PrintEntries(es), b[w..][..m]);
    Cut(b, w, m);
  }

  /** A field that parses has the kind asked for, and printing it gives a canonical form of
      the bytes it was read from. */
  lemma FieldShrinks(k: FieldKind, b: Bytes)
    requires ParseField(k, b).Some?
    ensures var (f, n) := ParseField(k, b).value;
            HasKind(k, f) && Printable(f) && Shrinks(PrintField(f), b[..n])
  {
    hide DecV, EncV, ParseEntries, PrintEntries;
    var (f, n) := ParseField(k, b).value;
    match k
    case KVarint => DecodeIsEncode(b);
    case KVarBytes =>
      var (len, w) := DecV(b).value;
      DecodeIsEncode(b);
      ShrinksConcat(EncV(len), b[..w], f.bs, f.bs);
      Cut(b, w, len);
    case KByteBytes => assert b[..n] == [b[0]] + f.bs;
    case KEntries => EntriesFieldShrinks(b);
    case KByte => assert b[..1] == [b[0]];
    case _ =>
  }

  lemma {:induction false} ParseShrinks(s: Shape, b: Bytes)
    requires Parse(s, b).Some?
    ensures var (fs, n) := Parse(s, b).value;
            HasShape(s, fs) && AllPrintable(fs) && Shrinks(Print(fs), b[..n])
            && (OpenEnded(s) && OpenOnlyLast(s) ==> n == |b|)
    decreases s
  {
    hide DecV, EncV, PrintField, ParseEntries;
    if s.Then? {
      var (f, n) := ParseField(s.head, b).value;
      var (fs, m) := Parse(s.tail, b[n..]).value;
      FieldShrinks(s.head, b);
      ParseShrinks(s.tail, b[n..]);
      ShrinksConcat(PrintField(f), b[..n], Print(fs), b[n..][..m]);
      assert b[..n + m] == b[..n] + b[n..][..m];
    }
  }
}
