/** The input and the check of join tokens (tools/zmuxwire/crypto.py lines 15-23 and 50-69,
    tools/zmuxwire/frames.py lines 310-326 and 459-486). HMAC-SHA-256 is a parameter: any
    function with 32 bytes of output. */
module Joins {
  import opened Base
  import opened Varint
  import opened Registry
  import opened Fields
  import opened Frames
  import opened Canonical
  import Classifier
  import Layout
  import BodyReader

  type Mac = (Bytes, Bytes) -> Bytes

  ghost predicate IsHash(hmac: Mac) {
    forall key, msg :: |hmac(key, msg)| == 32
  }

  // ---------------------------------------------------------------- key derivation

  /** The i-th block of section 2.3 of RFC 5869; block 0 is empty. */
  function Block(hmac: Mac, prk: Bytes, info: Bytes, i: nat): Bytes
    requires i <= 255
  {
    if i == 0 then [] else hmac(prk, Block(hmac, prk, info, i - 1) + info + [i])
  }

  function Blocks(hmac: Mac, prk: Bytes, info: Bytes, n: nat): Bytes
    requires n <= 255
  {
    if n == 0 then [] else Blocks(hmac, prk, info, n - 1) + Block(hmac, prk, info, n)
  }

  lemma {:induction false} BlocksLength(hmac: Mac, prk: Bytes, info: Bytes, n: nat)
    requires IsHash(hmac) && n <= 255
    ensures |Blocks(hmac, prk, info, n)| == 32 * n
  {
    if n == 0 {
    } else {
      BlocksLength(hmac, prk, info, n - 1);
    }
  }

  /** hkdf_expand; None when the block counter no longer fits a byte. */
  method HkdfExpand(hmac: Mac, prk: Bytes, info: Bytes, length: nat) returns (r: Option<Bytes>)
    requires IsHash(hmac)
    ensures r.Some? <==> length <= 255 * 32
    ensures r.Some? ==> var n := (length + 31) / 32;
              n <= 255 && |Blocks(hmac, prk, info, n)| == 32 * n && r.value == Blocks(hmac, prk, info, n)[..length]
  {
    var out: Bytes := [];
    var t: Bytes := [];
    var i := 1;
    while |out| < length
      invariant 1 <= i <= 256 && 32 * (i - 1) < length + 32
      invariant t == Block(hmac, prk, info, i - 1) && out == Blocks(hmac, prk, info, i - 1)
      invariant |out| == 32 * (i - 1)
      decreases length - |out|
    {
      if i > 255 {
        return None;
      }
      t := hmac(prk, t + info + [i]);
      out := out + t;
      i := i + 1;
    }
    return Some(out[..length]);
  }

  /** A shorter expansion is a prefix of a longer one. */
  lemma {:induction false} ExpansionsNest(hmac: Mac, prk: Bytes, info: Bytes, m: nat, n: nat)
    requires m <= n <= 255
    ensures Blocks(hmac, prk, info, m) <= Blocks(hmac, prk, info, n)
  {
    if m < n {
      ExpansionsNest(hmac, prk, info, m, n - 1);
    }
  }

  function Link(info: Bytes, ts: seq<Bytes>, i: nat): Bytes
    requires i < |ts| <= 255
  {
    if i == 0 then info + [1] else (ts[i - 1] + info) + [i + 1]
  }

  /** T(1), T(2), ... of section 2.3 of RFC 5869: each is the MAC of the one before it, the info
      and its number. */
  predicate Chained(hmac: Mac, prk: Bytes, info: Bytes, ts: seq<Bytes>)
    requires |ts| <= 255
  {
    forall i :: 0 <= i < |ts| ==> ts[i] == hmac(prk, Link(info, ts, i))
  }

  function Joined(ts: seq<Bytes>): Bytes {
    if ts == [] then [] else Joined(ts[..|ts| - 1]) + ts[|ts| - 1]
  }

  lemma SameLink(info: Bytes, ts: seq<Bytes>, i: nat)
    requires i < |ts| - 1 < 255
    ensures Link(info, ts[..|ts| - 1], i) == Link(info, ts, i)
  {
  }

  lemma ChainedInit(hmac: Mac, prk: Bytes, info: Bytes, ts: seq<Bytes>)
    requires 0 < |ts| <= 255 && Chained(hmac, prk, info, ts)
    ensures Chained(hmac, prk, info, ts[..|ts| - 1])
  {
    hide Link;
    var init := ts[..|ts| - 1];
    forall i | 0 <= i < |init| ensures init[i] == hmac(prk, Link(info, init, i)) {
      SameLink(info, ts, i);
    }
  }

  /** The expansion is their concatenation. */
  lemma {:induction false} ExpansionIsChain(hmac: Mac, prk: Bytes, info: Bytes, ts: seq<Bytes>)
    requires |ts| <= 255 && Chained(hmac, prk, info, ts)
    ensures Blocks(hmac, prk, info, |ts|) == Joined(ts)
    ensures Block(hmac, prk, info, |ts|) == if ts == [] then [] else ts[|ts| - 1]
  {
    if ts == [] {
    } else {
      var n := |ts| - 1;
      ChainedInit(hmac, prk, info, ts);
      ExpansionIsChain(hmac, prk, info, ts[..n]);
      assert [] + info + [1] == info + [1];
      assert Block(hmac, prk, info, n) + info + [n + 1] == Link(info, ts, n);
    }
  }

  function LabelBytes(s: string): Bytes
    requires forall i :: 0 <= i < |s| ==> s[i] < 128 as char
  {
    seq(|s|, i requires 0 <= i < |s| => s[i] as int)
  }

  function JoinLabel(initiator: bool): Bytes {
    if initiator then LabelBytes("zmux join i") else LabelBytes("zmux join r")
  }

  /** join_key: one block. */
  function JoinKey(hmac: Mac, secret: Bytes, initiator: bool): Bytes {
    hmac(secret, JoinLabel(initiator) + [1])
  }

  lemma FirstBlock(hmac: Mac, prk: Bytes, info: Bytes)
    requires IsHash(hmac)
    ensures Blocks(hmac, prk, info, 1)[..32] == hmac(prk, info + [1])
  {
    assert Blocks(hmac, prk, info, 0) == [] && Block(hmac, prk, info, 0) == [];
    assert [] + info + [1] == info + [1];
    assert Blocks(hmac, prk, info, 1) == [] + hmac(prk, info + [1]);
  }

  method ComputeJoinKey(hmac: Mac, secret: Bytes, initiator: bool) returns (key: Bytes)
    requires IsHash(hmac)
    ensures key == JoinKey(hmac, secret, initiator)
  {
    var info := JoinLabel(initiator);
    var expanded := HkdfExpand(hmac, secret, info, 32);
    key := expanded.value;
    FirstBlock(hmac, secret, info);
  }

  // ---------------------------------------------------------------- the MAC input

  /** join_bytes_without_token: the encoding up to its last 16 bytes. */
  function JoinBytesWithoutToken(j: Join): Bytes
    requires JoinInRange(j)
  {
    JoinPrintable(j);
    var full := Wire(PipeJoin(j));
    if |full| < 16 then [] else full[..|full| - 16]
  }

  /** The fields before the token. */
  function HeadFields(j: Join): FieldList {
    FCons(FByteBytes(j.locator), FCons(FVarint(j.pipe), FCons(FByte(JoinFlags(j)),
    FCons(FVarint(j.fateGroup), FCons(FVarint(j.priority), FNil)))))
  }

  const HEAD_SHAPE: Shape :=
    Then(KByteBytes, Then(KVarint, Then(KByte, Then(KVarint, Then(KVarint, End)))))

  lemma HeadPrintable(j: Join)
    requires JoinInRange(j)
    ensures AllPrintable(HeadFields(j)) && HasShape(HEAD_SHAPE, HeadFields(j))
    ensures !OpenEnded(HEAD_SHAPE)
  {
    var f3 := FCons(FVarint(j.fateGroup), FCons(FVarint(j.priority), FNil));
    var f2 := FCons(FByte(JoinFlags(j)), f3);
    var s3 := Then(KVarint, Then(KVarint, End));
    assert AllPrintable(FNil) && HasShape(End, FNil);
    assert AllPrintable(f3.tail) && HasShape(s3.tail, f3.tail) && !OpenEnded(s3.tail);
    assert AllPrintable(f3) && HasShape(s3, f3) && !OpenEnded(s3);
    assert AllPrintable(f2) && HasShape(Then(KByte, s3), f2) && !OpenEnded(Then(KByte, s3));
    assert !OpenEnded(HEAD_SHAPE.tail);
  }

  /** Fields with a fixed part after the last of them. */
  function WithToken(fs: FieldList, token: Bytes): FieldList {
    if fs.FNil? then FCons(FFixed(token), FNil) else FCons(fs.head, WithToken(fs.tail, token))
  }

  lemma TokenLast(j: Join)
    ensures WithToken(HeadFields(j), j.token) == JoinFields(j)
  {
    var f5 := FCons(FFixed(j.token), FNil);
    assert WithToken(FNil, j.token) == f5;
    assert WithToken(FCons(FVarint(j.priority), FNil), j.token) == FCons(FVarint(j.priority), f5);
    assert WithToken(HeadFields(j).tail.tail, j.token) == JoinFields(j).tail.tail;
  }

  lemma {:induction false} SplitFields(fs: FieldList, token: Bytes)
    requires AllPrintable(fs)
    ensures AllPrintable(WithToken(fs, token)) && Print(WithToken(fs, token)) == Print(fs) + token
  {
    hide PrintField;
    if fs.FCons? {
      SplitFields(fs.tail, token);
      AppendAssoc(PrintField(fs.head), Print(fs.tail), token);
    } else {
      assert PrintField(FFixed(token)) == token by { FixedPrint(token); }
    }
  }

  lemma JoinSplits(j: Join)
    requires JoinInRange(j)
    ensures AllPrintable(JoinFields(j)) && AllPrintable(HeadFields(j))
    ensures Print(JoinFields(j)) == Print(HeadFields(j)) + j.token
  {
    hide EncV;
    JoinPrintable(j);
    HeadPrintable(j);
    var h := HeadFields(j);
    var f := JoinFields(j);
    SplitFields(h, j.token);
    assert f == WithToken(h, j.token) by { TokenLast(j); }
  }

  /** With a token of 16 bytes the input is everything before it, Type through Priority. */
  lemma InputIsHead(j: Join)
    requires JoinInRange(j) && |j.token| == JOIN_TOKEN_BYTES
    ensures AllPrintable(HeadFields(j))
    ensures JoinBytesWithoutToken(j) == EncV(PIPE_JOIN_TYPE) + Print(HeadFields(j))
  {
    hide EncV, Print;
    JoinSplits(j);
    var head := EncV(PIPE_JOIN_TYPE) + Print(HeadFields(j));
    AppendAssoc(EncV(PIPE_JOIN_TYPE), Print(HeadFields(j)), j.token);
    assert Wire(PipeJoin(j)) == head + j.token;
    assert (head + j.token)[..|head|] == head;
  }

  lemma FlagsDetermine(i: Join, j: Join)
    requires JoinFlags(i) == JoinFlags(j)
    ensures i.direction == j.direction && i.carrierBound == j.carrierBound && i.standby == j.standby
  {
    assert JoinFlags(i) % 4 == DirectionCode(i.direction) && JoinFlags(j) % 4 == DirectionCode(j.direction);
    assert JoinFlags(i) % 8 >= 4 <==> i.carrierBound;
    assert JoinFlags(j) % 8 >= 4 <==> j.carrierBound;
  }

  /** The MAC input is unambiguous: the same bytes come from the same join, token aside, and
      the same carrier binding. */
  lemma InputIsUnambiguous(i: Join, bindingI: Bytes, j: Join, bindingJ: Bytes)
    requires JoinInRange(i) && JoinInRange(j) && |i.token| == |j.token| == JOIN_TOKEN_BYTES
    requires JoinBytesWithoutToken(i) + bindingI == JoinBytesWithoutToken(j) + bindingJ
    ensures i.(token := j.token) == j && bindingI == bindingJ
  {
    hide EncV, Print, Parse, JoinBytesWithoutToken, JoinFlags;
    InputIsHead(i);
    InputIsHead(j);
    var t := EncV(PIPE_JOIN_TYPE);
    var a, b := Print(HeadFields(i)) + bindingI, Print(HeadFields(j)) + bindingJ;
    AppendAssoc(t, Print(HeadFields(i)), bindingI);
    AppendAssoc(t, Print(HeadFields(j)), bindingJ);
    AppendDrop(t, a);
    AppendDrop(t, b);
    assert a == b;
    HeadPrintable(i);
    HeadPrintable(j);
    ParsePrint(HEAD_SHAPE, HeadFields(i), bindingI);
    ParsePrint(HEAD_SHAPE, HeadFields(j), bindingJ);
    AppendDrop(Print(HeadFields(i)), bindingI);
    AppendDrop(Print(HeadFields(j)), bindingJ);
    FlagsDetermine(i, j);
  }

  // ---------------------------------------------------------------- tokens

  /** join_token: the frame's own token plays no part. */
  function JoinToken(hmac: Mac, secret: Bytes, initiator: bool, j: Join, binding: Bytes): Bytes
    requires JoinInRange(j)
  {
    var input := JoinBytesWithoutToken(j.(token := Zeros(16)));
    var mac := hmac(JoinKey(hmac, secret, initiator), input + binding);
    if |mac| < 16 then mac else mac[..16]
  }

  /** verify_join. */
  predicate VerifyJoin(hmac: Mac, secret: Bytes, initiator: bool, j: Join, binding: Bytes)
    requires JoinInRange(j)
  {
    JoinToken(hmac, secret, initiator, j, binding) == j.token
  }

  /** A join sealed with its token verifies, and only with that token. */
  lemma SealedVerifies(hmac: Mac, secret: Bytes, initiator: bool, j: Join, token: Bytes, binding: Bytes)
    requires JoinInRange(j)
    ensures VerifyJoin(hmac, secret, initiator, j.(token := token), binding) <==>
              token == JoinToken(hmac, secret, initiator, j, binding)
  {
    assert j.(token := token).(token := Zeros(16)) == j.(token := Zeros(16));
  }

  /** The labels of the two roles. */
  lemma LabelsSpelled()
    ensures JoinLabel(true) == [0x7A, 0x6D, 0x75, 0x78, 0x20, 0x6A, 0x6F, 0x69, 0x6E, 0x20, 0x69]
    ensures JoinLabel(false) == [0x7A, 0x6D, 0x75, 0x78, 0x20, 0x6A, 0x6F, 0x69, 0x6E, 0x20, 0x72]
  {
  }

  /** What a token is the head of the MAC of: the join up to its token, written out, and then the
      carrier binding. */
  function TokenInput(j: Join, binding: Bytes): Bytes {
    [0x9A, 0x24, 0xDE, 0x36] + ((Layout.Byte(|j.locator|) + j.locator) + (Layout.V(j.pipe)
    + (Layout.Byte(Layout.JoinFlagByte(j)) + (Layout.V(j.fateGroup) + (Layout.V(j.priority) + binding)))))
  }

  lemma Regrouped(t: Bytes, l: Bytes, p: Bytes, c: Bytes, g: Bytes, r: Bytes, tail: Bytes)
    ensures t + (l + (p + (c + (g + r)))) + tail == t + (l + (p + (c + (g + (r + tail)))))
  {
    AppendAssoc(g, r, tail);
    AppendAssoc(c, g + r, tail);
    AppendAssoc(p, c + (g + r), tail);
    AppendAssoc(l, p + (c + (g + r)), tail);
    AppendAssoc(t, l + (p + (c + (g + r))), tail);
  }

  lemma WireSplits(j: Join)
    requires JoinInRange(j) && |j.token| == JOIN_TOKEN_BYTES
    ensures Encodable(PipeJoin(j)) && Wire(PipeJoin(j)) == JoinBytesWithoutToken(j) + j.token
  {
    hide EncV, Print;
    JoinPrintable(j);
    InputIsHead(j);
    JoinSplits(j);
    AppendAssoc(EncV(PIPE_JOIN_TYPE), Print(HeadFields(j)), j.token);
  }

  lemma SameTail(a: Bytes, b: Bytes, tail: Bytes)
    requires a + tail == b + tail
    ensures a == b
  {
    assert |a| == |b|;
    assert a == (a + tail)[..|a|] == (b + tail)[..|b|] == b;
  }

  lemma HeadLayout(j: Join, binding: Bytes)
    requires JoinInRange(j) && |j.token| == JOIN_TOKEN_BYTES
    ensures JoinBytesWithoutToken(j) + binding == TokenInput(j, binding)
  {
    hide EncV, Layout.V, Layout.Byte, JoinBytesWithoutToken, Wire, Encodable;
    WireSplits(j);
    Layout.WireLayout(PipeJoin(j));
    var l, p, c, g, r := Layout.Byte(|j.locator|) + j.locator, Layout.V(j.pipe),
      Layout.Byte(Layout.JoinFlagByte(j)), Layout.V(j.fateGroup), Layout.V(j.priority);
    var t: Bytes := [0x9A, 0x24, 0xDE, 0x36];
    var head := t + (l + (p + (c + (g + r))));
    Regrouped(t, l, p, c, g, r, j.token);
    Regrouped(t, l, p, c, g, r, binding);
    SameTail(head, JoinBytesWithoutToken(j), j.token);
  }

  lemma KeySpelled(hmac: Mac, secret: Bytes, initiator: bool)
    ensures JoinKey(hmac, secret, initiator) ==
              hmac(secret, [0x7A, 0x6D, 0x75, 0x78, 0x20, 0x6A, 0x6F, 0x69, 0x6E, 0x20,
                            if initiator then 0x69 else 0x72, 0x01])
  {
    hide JoinLabel;
    LabelsSpelled();
    assert JoinLabel(initiator) + [1] == [0x7A, 0x6D, 0x75, 0x78, 0x20, 0x6A, 0x6F, 0x69, 0x6E, 0x20,
                                          if initiator then 0x69 else 0x72, 0x01];
  }

  lemma SameInput(j: Join, binding: Bytes)
    ensures TokenInput(j.(token := Zeros(16)), binding) == TokenInput(j, binding)
  {
  }

  /** The first 16 bytes of the MAC, under the key of the role, of the join and the binding. */
  lemma TokenSpelled(hmac: Mac, secret: Bytes, initiator: bool, j: Join, binding: Bytes)
    requires JoinInRange(j) && IsHash(hmac)
    ensures var key := hmac(secret, [0x7A, 0x6D, 0x75, 0x78, 0x20, 0x6A, 0x6F, 0x69, 0x6E, 0x20,
                                     if initiator then 0x69 else 0x72, 0x01]);
            JoinToken(hmac, secret, initiator, j, binding) == hmac(key, TokenInput(j, binding))[..16]
  {
    hide TokenInput, JoinBytesWithoutToken, JoinLabel;
    LabelsSpelled();
    KeySpelled(hmac, secret, initiator);
    HeadLayout(j.(token := Zeros(16)), binding);
    SameInput(j, binding);
  }

  function Ones(n: nat): (b: Bytes)
    ensures |b| == n
  {
    seq(n, _ => 1)
  }

  /** A hash that tells one key and message from all others, and the keys of the two roles apart. */
  function Telling(key: Bytes, msg: Bytes): Mac {
    (k: Bytes, m: Bytes) =>
      if m == JoinLabel(true) + [1] then Zeros(32)
      else if m == JoinLabel(false) + [1] then Ones(32)
      else if k == key && m == msg then Zeros(32) else Ones(32)
  }

  lemma NoLabel(j: Join, binding: Bytes, initiator: bool)
    ensures TokenInput(j, binding) != JoinLabel(initiator) + [1]
  {
    LabelsSpelled();
    assert TokenInput(j, binding)[0] == 0x9A;
  }

  lemma InputsDiffer(i: Join, bindingI: Bytes, j: Join, bindingJ: Bytes)
    requires JoinInRange(i) && JoinInRange(j) && TokenInput(i, bindingI) == TokenInput(j, bindingJ)
    ensures i.(token := j.token) == j && bindingI == bindingJ
  {
    hide TokenInput, JoinBytesWithoutToken;
    var k, l := i.(token := Zeros(16)), j.(token := Zeros(16));
    SameInput(i, bindingI);
    SameInput(j, bindingJ);
    HeadLayout(k, bindingI);
    HeadLayout(l, bindingJ);
    InputIsUnambiguous(k, bindingI, l, bindingJ);
    assert i.(token := j.token) == k.(token := l.token).(token := j.token);
  }

  lemma TellingIsHash(key: Bytes, msg: Bytes)
    ensures IsHash(Telling(key, msg))
  {
    hide JoinLabel;
    assert |Zeros(32)| == |Ones(32)| == 32;
  }

  function RoleKey(initiator: bool): Bytes {
    if initiator then Zeros(32) else Ones(32)
  }

  lemma KeysDiffer()
    ensures RoleKey(true) != RoleKey(false) && Zeros(32)[..16] != Ones(32)[..16]
  {
    assert Zeros(32)[0] == 0 != Ones(32)[0];
    assert Zeros(32)[..16][0] == 0 && Ones(32)[..16][0] == 1;
  }

  lemma LabelsDiffer()
    ensures JoinLabel(true) + [1] != JoinLabel(false) + [1]
  {
    LabelsSpelled();
    assert (JoinLabel(true) + [1])[10] == 0x69;
    assert (JoinLabel(false) + [1])[10] == 0x72;
  }

  /** The token under a telling hash shows whether it was the key and the message to tell. */
  lemma TokenTold(key: Bytes, msg: Bytes, secret: Bytes, initiator: bool, j: Join, binding: Bytes)
    requires JoinInRange(j)
    ensures JoinToken(Telling(key, msg), secret, initiator, j, binding) ==
              (if RoleKey(initiator) == key && TokenInput(j, binding) == msg then Zeros(32) else Ones(32))[..16]
  {
    hide TokenInput, JoinLabel, JoinBytesWithoutToken, Zeros, Ones;
    var hmac := Telling(key, msg);
    LabelsDiffer();
    NoLabel(j, binding, true);
    NoLabel(j, binding, false);
    assert JoinKey(hmac, secret, initiator) == RoleKey(initiator);
    HeadLayout(j.(token := Zeros(16)), binding);
    SameInput(j, binding);
    TellingIsHash(key, msg);
  }

  lemma ToldApart(secret: Bytes, r: bool, i: Join, bindingI: Bytes, q: bool, j: Join, bindingJ: Bytes)
    requires JoinInRange(i) && JoinInRange(j)
    requires r != q || TokenInput(i, bindingI) != TokenInput(j, bindingJ)
    ensures var hmac := Telling(RoleKey(r), TokenInput(i, bindingI));
            && IsHash(hmac) && JoinToken(hmac, secret, r, i, bindingI) != JoinToken(hmac, secret, q, j, bindingJ)
  {
    hide TokenInput, JoinToken, Telling, RoleKey, IsHash;
    var key, msg := RoleKey(r), TokenInput(i, bindingI);
    KeysDiffer();
    TellingIsHash(key, msg);
    TokenTold(key, msg, secret, r, i, bindingI);
    TokenTold(key, msg, secret, q, j, bindingJ);
  }

  lemma TokenAside(i: Join, j: Join, binding: Bytes)
    ensures i.(token := j.token) == j ==> TokenInput(i, binding) == TokenInput(j, binding)
  {
  }

  /** A token is bound to everything: two sides compute the same one under every hash exactly when
      they have the same role, the same join, token aside, and the same carrier binding. */
  lemma TokenBindsAll(secret: Bytes, r: bool, i: Join, bindingI: Bytes, q: bool, j: Join, bindingJ: Bytes)
    requires JoinInRange(i) && JoinInRange(j)
    ensures (forall hmac: Mac :: IsHash(hmac) ==>
               JoinToken(hmac, secret, r, i, bindingI) == JoinToken(hmac, secret, q, j, bindingJ)) <==>
            r == q && i.(token := j.token) == j && bindingI == bindingJ
  {
    hide TokenInput, JoinToken, Telling, IsHash, RoleKey;
    if r != q || TokenInput(i, bindingI) != TokenInput(j, bindingJ) {
      ToldApart(secret, r, i, bindingI, q, j, bindingJ);
      TokenAside(i, j, bindingI);
    } else {
      InputsDiffer(i, bindingI, j, bindingJ);
      forall hmac: Mac | IsHash(hmac)
        ensures JoinToken(hmac, secret, r, i, bindingI) == JoinToken(hmac, secret, q, j, bindingJ)
      {
        TokenSpelled(hmac, secret, r, i, bindingI);
        TokenSpelled(hmac, secret, q, j, bindingJ);
      }
    }
  }

  /** So the token of another join, binding or role is refused, under some hash. */
  lemma OthersTokenRefused(secret: Bytes, r: bool, i: Join, bindingI: Bytes, q: bool, j: Join, bindingJ: Bytes)
    returns (hmac: Mac)
    requires JoinInRange(i) && JoinInRange(j)
    requires r != q || i.(token := j.token) != j || bindingI != bindingJ
    ensures IsHash(hmac)
    ensures var token := JoinToken(hmac, secret, r, i, bindingI);
            !VerifyJoin(hmac, secret, q, j.(token := token), bindingJ)
  {
    hide JoinToken, IsHash;
    TokenBindsAll(secret, r, i, bindingI, q, j, bindingJ);
    hmac :| IsHash(hmac) &&
            JoinToken(hmac, secret, r, i, bindingI) != JoinToken(hmac, secret, q, j, bindingJ);
    SealedVerifies(hmac, secret, q, j, JoinToken(hmac, secret, r, i, bindingI), bindingJ);
  }

  // ---------------------------------------------------------------- every encoding of a join

  datatype Widths = Widths(pipe: nat, fateGroup: nat, priority: nat)

  predicate FitsWidths(j: Join, w: Widths)
    requires JoinInRange(j)
  {
    && IsWidth(w.pipe) && VarintLen(j.pipe) <= w.pipe
    && IsWidth(w.fateGroup) && VarintLen(j.fateGroup) <= w.fateGroup
    && IsWidth(w.priority) && VarintLen(j.priority) <= w.priority
  }

  /** A join with each field varint written in the given number of bytes. */
  function WideWire(j: Join, w: Widths): Bytes
    requires JoinInRange(j) && FitsWidths(j, w)
  {
    EncV(PIPE_JOIN_TYPE) + (([|j.locator|] + j.locator) + (EncodeWidth(j.pipe, w.pipe) + ([JoinFlags(j)] +
    (EncodeWidth(j.fateGroup, w.fateGroup) + (EncodeWidth(j.priority, w.priority) + j.token)))))
  }

  lemma ParseWide(v: vint, w: nat, rest: Shape, tail: Bytes)
    requires IsWidth(w) && VarintLen(v) <= w
    ensures Parse(Then(KVarint, rest), EncodeWidth(v, w) + tail) == Prepend(FVarint(v), w, Parse(rest, tail))
  {
    hide DecV, EncodeWidth;
    DecodeWidth(v, w, tail);
    AppendDrop(EncodeWidth(v, w), tail);
  }

  lemma ParseHeadByte(b: byte, rest: Shape, tail: Bytes)
    ensures Parse(Then(KByte, rest), [b] + tail) == Prepend(FByte(b), 1, Parse(rest, tail))
  {
    AppendDrop([b], tail);
  }

  lemma ParseLocator(loc: Bytes, rest: Shape, tail: Bytes)
    requires |loc| < 256
    ensures Parse(Then(KByteBytes, rest), ([|loc|] + loc) + tail) ==
              Prepend(FByteBytes(loc), 1 + |loc|, Parse(rest, tail))
  {
    var b := ([|loc|] + loc) + tail;
    assert b[1..1 + |loc|] == loc;
    AppendDrop([|loc|] + loc, tail);
  }

  lemma ParseToken(token: Bytes, tail: Bytes)
    ensures Parse(Then(KFixed(|token|), End), token + tail) == Some((FCons(FFixed(token), FNil), |token|))
  {
    AppendDrop(token, tail);
    EndParse(tail);
  }

  lemma WideParses(j: Join, w: Widths, tail: Bytes)
    requires JoinInRange(j) && FitsWidths(j, w) && |j.token| == JOIN_TOKEN_BYTES
    ensures var b := ([|j.locator|] + j.locator) + (EncodeWidth(j.pipe, w.pipe) + ([JoinFlags(j)] +
              (EncodeWidth(j.fateGroup, w.fateGroup) + (EncodeWidth(j.priority, w.priority) + (j.token + tail)))));
            Parse(JoinShape(), b) == Some((JoinFields(j), |b| - |tail|))
  {
    hide EncodeWidth, Parse, JoinFlags;
    var f5 := j.token + tail;
    var f4 := EncodeWidth(j.priority, w.priority) + f5;
    var f3 := EncodeWidth(j.fateGroup, w.fateGroup) + f4;
    var f2 := [JoinFlags(j)] + f3;
    var f1 := EncodeWidth(j.pipe, w.pipe) + f2;
    var s := JoinShape();
    ParseLocator(j.locator, s.tail, f1);
    ParseWide(j.pipe, w.pipe, s.tail.tail, f2);
    ParseHeadByte(JoinFlags(j), s.tail.tail.tail, f3);
    ParseWide(j.fateGroup, w.fateGroup, s.tail.tail.tail.tail, f4);
    ParseWide(j.priority, w.priority, s.tail.tail.tail.tail.tail, f5);
    ParseToken(j.token, tail);
  }

  lemma TokenIsSixteen(j: Join)
    requires FrameWellFormed(PipeJoin(j))
    ensures |j.token| == JOIN_TOKEN_BYTES
  {
  }

  lemma WideParts(j: Join, w: Widths, tail: Bytes)
    requires JoinInRange(j) && FitsWidths(j, w)
    ensures WideWire(j, w) + tail ==
              EncV(PIPE_JOIN_TYPE) + (([|j.locator|] + j.locator) + (EncodeWidth(j.pipe, w.pipe) + ([JoinFlags(j)] +
              (EncodeWidth(j.fateGroup, w.fateGroup) + (EncodeWidth(j.priority, w.priority) + (j.token + tail))))))
  {
    hide EncV, EncodeWidth, JoinFlags;
    var t, l, p, g, r := EncV(PIPE_JOIN_TYPE), [|j.locator|] + j.locator, EncodeWidth(j.pipe, w.pipe),
      EncodeWidth(j.fateGroup, w.fateGroup), EncodeWidth(j.priority, w.priority);
    var c: Bytes := [JoinFlags(j)];
    AppendAssoc(r, j.token, tail);
    AppendAssoc(g, r + j.token, tail);
    AppendAssoc(c, g + (r + j.token), tail);
    AppendAssoc(p, c + (g + (r + j.token)), tail);
    AppendAssoc(l, p + (c + (g + (r + j.token))), tail);
    AppendAssoc(t, l + (p + (c + (g + (r + j.token)))), tail);
  }

  /** Every such encoding of a well-formed join decodes to the join itself. */
  lemma WideDecodes(j: Join, w: Widths, tail: Bytes, enabled: Gates)
    requires FrameWellFormed(PipeJoin(j)) && JoinInRange(j) && FitsWidths(j, w) && Negotiated(PIPE_JOIN, enabled)
    ensures DecodeFrameSpec(WideWire(j, w) + tail, enabled, None) == Ok((PipeJoin(j), |WideWire(j, w)|))
  {
    hide EncV, DecV, EncodeWidth, Parse, Build, FrameWellFormed, FrameByType, Negotiated, JoinFlags, ZeroRun;
    var t := EncV(PIPE_JOIN_TYPE);
    var f5 := j.token + tail;
    var f4 := EncodeWidth(j.priority, w.priority) + f5;
    var f3 := EncodeWidth(j.fateGroup, w.fateGroup) + f4;
    var f2 := [JoinFlags(j)] + f3;
    var f1 := EncodeWidth(j.pipe, w.pipe) + f2;
    var f0 := ([|j.locator|] + j.locator) + f1;
    WideParts(j, w, tail);
    assert WideWire(j, w) + tail == t + f0;
    DecodeEncode(PIPE_JOIN_TYPE, f0);
    AppendDrop(t, f0);
    KindCodes(PIPE_JOIN, PIPE_JOIN_TYPE);
    TokenIsSixteen(j);
    WideParses(j, w, tail);
    BuildOwnFields(PipeJoin(j));
    BodyReader.Parsed(PIPE_JOIN, PIPE_JOIN_TYPE, f0, JoinFields(j), |f0| - |tail|);
  }

  /** What the first field of a parse says about the bytes, for the three forms in a join. */
  lemma FieldBytes(k: FieldKind, b: Bytes)
    requires ParseField(k, b).Some?
    ensures var (f, n) := ParseField(k, b).value;
            && (k.KVarint? ==> f.FVarint? && IsVarint(f.v) && IsWidth(n) && VarintLen(f.v) <= n
                               && b[..n] == EncodeWidth(f.v, n))
            && (k.KByte? ==> f.FByte? && 0 <= f.b < 256 && b[..n] == [f.b])
            && (k.KFixed? ==> f.FFixed? && b[..n] == f.bs)
            && (k.KByteBytes? ==> f.FByteBytes? && |f.bs| < 256 && b[..n] == [|f.bs|] + f.bs)
  {
    hide DecV, EncodeWidth;
    if k.KVarint? {
      DecodeIsEncode(b);
    }
  }

  const TAIL_SHAPE: Shape := Then(KVarint, Then(KVarint, Then(KFixed(JOIN_TOKEN_BYTES), End)))

  /** The fate group, the priority and the token. */
  lemma TailIsWide(b: Bytes) returns (g: nat, p: nat)
    requires Parse(TAIL_SHAPE, b).Some?
    ensures var (fs, n) := Parse(TAIL_SHAPE, b).value;
            && fs.FCons? && fs.head.FVarint? && fs.tail.FCons? && fs.tail.head.FVarint?
            && fs.tail.tail.FCons? && fs.tail.tail.head.FFixed?
            && IsVarint(fs.head.v) && IsWidth(g) && VarintLen(fs.head.v) <= g
            && IsVarint(fs.tail.head.v) && IsWidth(p) && VarintLen(fs.tail.head.v) <= p
            && b[..n] == EncodeWidth(fs.head.v, g) + (EncodeWidth(fs.tail.head.v, p) + fs.tail.tail.head.bs)
  {
    hide EncodeWidth, Parse, ParseField;
    Classifier.Unparse(TAIL_SHAPE, b);
    FieldBytes(KVarint, b);
    g := ParseField(KVarint, b).value.1;
    var b4 := b[g..];
    Classifier.Unparse(TAIL_SHAPE.tail, b4);
    FieldBytes(KVarint, b4);
    p := ParseField(KVarint, b4).value.1;
    var b5 := b4[p..];
    Classifier.Unparse(TAIL_SHAPE.tail.tail, b5);
    FieldBytes(KFixed(16), b5);
    var n5 := ParseField(KFixed(16), b5).value.1;
    EndParse(b5[n5..]);
    Cut(b, g, p + n5);
    Cut(b4, p, n5);
  }

  /** The locator, the pipe and the flags. */
  lemma HeadIsWide(b: Bytes) returns (p: nat, rest: Bytes)
    requires Parse(JoinShape(), b).Some?
    ensures var (fs, n) := Parse(JoinShape(), b).value;
            && fs.FCons? && fs.head.FByteBytes? && |fs.head.bs| < 256 && fs.tail.FCons? && fs.tail.head.FVarint?
            && fs.tail.tail.FCons? && fs.tail.tail.head.FByte? && 0 <= fs.tail.tail.head.b < 256
            && IsVarint(fs.tail.head.v) && IsWidth(p) && VarintLen(fs.tail.head.v) <= p
            && Parse(TAIL_SHAPE, rest).Some? && Parse(TAIL_SHAPE, rest).value.0 == fs.tail.tail.tail
            && b[..n] == ([|fs.head.bs|] + fs.head.bs) + (EncodeWidth(fs.tail.head.v, p)
                 + ([fs.tail.tail.head.b] + rest[..Parse(TAIL_SHAPE, rest).value.1]))
  {
    hide EncodeWidth, Parse, ParseField;
    var s := JoinShape();
    Classifier.Unparse(s, b);
    FieldBytes(KByteBytes, b);
    var n0 := ParseField(s.head, b).value.1;
    var b1 := b[n0..];
    Classifier.Unparse(s.tail, b1);
    FieldBytes(KVarint, b1);
    p := ParseField(KVarint, b1).value.1;
    var b2 := b1[p..];
    Classifier.Unparse(s.tail.tail, b2);
    FieldBytes(KByte, b2);
    var n2 := ParseField(KByte, b2).value.1;
    rest := b2[n2..];
    var n3 := Parse(TAIL_SHAPE, rest).value.1;
    Cut(b, n0, p + n2 + n3);
    Cut(b1, p, n2 + n3);
    Cut(b2, n2, n3);
  }

  lemma BuiltFrom(fs: FieldList)
    requires Build(PIPE_JOIN, PIPE_JOIN_TYPE, fs).Ok? && fs.FCons?
    requires fs.tail.FCons? && fs.tail.tail.FCons? && fs.tail.tail.head.FByte? && 0 <= fs.tail.tail.head.b < 256
    ensures var f := Build(PIPE_JOIN, PIPE_JOIN_TYPE, fs).value; f.PipeJoin? && JoinFields(f.join) == fs
  {
    hide BuildJoin, JoinFields;
    match fs
    case FCons(FByteBytes(locator), FCons(FVarint(pipe), FCons(FByte(flags), FCons(FVarint(fateGroup),
         FCons(FVarint(priority), FCons(FFixed(token), FNil)))))) =>
      BackJoin(locator, pipe, flags, fateGroup, priority, token);
  }

  lemma BodyIsWide(b: Bytes) returns (w: Widths)
    requires DecodeBody(PIPE_JOIN, PIPE_JOIN_TYPE, b).Ok?
    ensures var (f, n) := DecodeBody(PIPE_JOIN, PIPE_JOIN_TYPE, b).value;
            && f.PipeJoin? && JoinInRange(f.join) && FitsWidths(f.join, w)
            && var j := f.join;
               b[..n] == ([|j.locator|] + j.locator) + (EncodeWidth(j.pipe, w.pipe) + ([JoinFlags(j)] +
                 (EncodeWidth(j.fateGroup, w.fateGroup) + (EncodeWidth(j.priority, w.priority) + j.token))))
  {
    hide EncodeWidth, Parse, ParseField, Build, JoinFlags;
    var fs := Parse(JoinShape(), b).value.0;
    var p, rest := HeadIsWide(b);
    var g, q := TailIsWide(rest);
    w := Widths(p, g, q);
    BuiltFrom(fs);
  }

  /** And conversely: whatever bytes decode to a join are one of those encodings of it. */
  lemma DecodedIsWide(b: Bytes, enabled: Gates, limit: Option<int>) returns (w: Widths)
    requires DecodeFrameSpec(b, enabled, limit).Ok? && DecodeFrameSpec(b, enabled, limit).value.0.PipeJoin?
    ensures var (f, n) := DecodeFrameSpec(b, enabled, limit).value;
            JoinInRange(f.join) && FitsWidths(f.join, w) && b[..n] == WideWire(f.join, w)
  {
    hide EncV, DecV, EncodeWidth, Parse, ParseField, Build, FrameWellFormed, FrameByType, Negotiated, ZeroRun, Wire;
    FrameShrinks(b, enabled, limit);
    DecodeIsEncode(b);
    KindCodes(PIPE_JOIN, PIPE_JOIN_TYPE);
    var (f, n) := DecodeFrameSpec(b, enabled, limit).value;
    w := BodyIsWide(b[4..]);
    Cut(b, 4, n - 4);
    assert b[..4] == EncV(PIPE_JOIN_TYPE);
  }

  lemma TokenLength(hmac: Mac, secret: Bytes, initiator: bool, j: Join, binding: Bytes)
    requires JoinInRange(j) && IsHash(hmac)
    ensures |JoinToken(hmac, secret, initiator, j, binding)| == JOIN_TOKEN_BYTES
  {
  }

  lemma SealedWellFormed(j: Join)
    requires JoinInRange(j) && 1 <= |j.locator| <= MAX_LOCATOR_BYTES && |j.token| == JOIN_TOKEN_BYTES
    ensures FrameWellFormed(PipeJoin(j))
  {
    JoinPrintable(j);
  }

  /** A join that was sealed with its token is accepted by the receiver from any encoding of
      it: each one decodes to the same join, and that join verifies. */
  lemma SealedJoinSurvivesTheWire(hmac: Mac, secret: Bytes, initiator: bool, j: Join, binding: Bytes,
                                  w: Widths, tail: Bytes, enabled: Gates)
    requires JoinInRange(j) && FitsWidths(j, w) && Negotiated(PIPE_JOIN, enabled)
    requires 1 <= |j.locator| <= MAX_LOCATOR_BYTES && IsHash(hmac)
    ensures var sealed := j.(token := JoinToken(hmac, secret, initiator, j, binding));
            var r := DecodeFrameSpec(WideWire(sealed, w) + tail, enabled, None);
            r == Ok((PipeJoin(sealed), |WideWire(sealed, w)|)) && VerifyJoin(hmac, secret, initiator, sealed, binding)
  {
    hide WideWire, DecodeFrameSpec, JoinToken;
    var token := JoinToken(hmac, secret, initiator, j, binding);
    TokenLength(hmac, secret, initiator, j, binding);
    var sealed := j.(token := token);
    SealedWellFormed(sealed);
    SealedVerifies(hmac, secret, initiator, j, token, binding);
    WideDecodes(sealed, w, tail, enabled);
  }
}
