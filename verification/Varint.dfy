/** QUIC variable-length integers, section 16 of RFC 9000 (tools/zmuxwire/varint.py). */
module Varint {
  import opened Base

  const MAX_VARINT: int := 0x3FFF_FFFF_FFFF_FFFF

  type vint = v: int | 0 <= v <= MAX_VARINT

  predicate IsVarint(v: int) {
    0 <= v <= MAX_VARINT
  }

  function VarintLen(v: vint): (n: nat) {
    if v < 0x40 then 1
    else if v < 0x4000 then 2
    else if v < 0x4000_0000 then 4
    else 8
  }

  // ---------------------------------------------------------------- big-endian numbers

  function Pow256(n: nat): (p: nat)
    ensures p > 0
  {
    if n == 0 then 1 else 256 * Pow256(n - 1)
  }

  function ToBytes(v: nat, n: nat): (b: Bytes)
    ensures |b| == n
  {
    if n == 0 then [] else ToBytes(v / 256, n - 1) + [v % 256]
  }

  function FromBytes(b: Bytes): nat {
    if b == [] then 0 else FromBytes(b[..|b| - 1]) * 256 + b[|b| - 1]
  }

  lemma {:induction false} FromToBytes(v: nat, n: nat)
    requires v < Pow256(n)
    ensures FromBytes(ToBytes(v, n)) == v
  {
    if n == 0 {
    } else {
      FromToBytes(v / 256, n - 1);
      assert ToBytes(v, n)[..n - 1] == ToBytes(v / 256, n - 1);
    }
  }

  lemma {:induction false} ToFromBytes(b: Bytes)
    ensures FromBytes(b) < Pow256(|b|)
    ensures ToBytes(FromBytes(b), |b|) == b
  {
    if b == [] {
    } else {
      var init := b[..|b| - 1];
      ToFromBytes(init);
      assert FromBytes(b) / 256 == FromBytes(init) && FromBytes(b) % 256 == b[|b| - 1];
      assert b == init + [b[|b| - 1]];
    }
  }

  lemma {:induction false} FromBytesAppend(x: Bytes, y: Bytes)
    ensures FromBytes(x + y) == FromBytes(x) * Pow256(|y|) + FromBytes(y)
  {
    if y == [] {
      assert x + y == x;
    } else {
      var init, last := y[..|y| - 1], y[|y| - 1];
      assert (x + y)[..|x + y| - 1] == x + init;
      FromBytesAppend(x, init);
      assert FromBytes(x) * Pow256(|y|) == FromBytes(x) * Pow256(|init|) * 256;
    }
  }

  /** A number below 64 * 256^(n-1) leaves the two top bits of its n bytes clear. */
  lemma {:induction false} TopBits(v: nat, n: nat)
    requires n > 0
    ensures v < 64 * Pow256(n - 1) ==> v < Pow256(n) && ToBytes(v, n)[0] < 64
  {
    if n > 1 {
      TopBits(v / 256, n - 1);
      assert ToBytes(v, n)[0] == ToBytes(v / 256, n - 1)[0];
    }
  }

  /** The first of the n bytes of a number. */
  lemma {:induction false} LeadingByte(v: nat, n: nat, first: byte)
    requires n > 0 && first * Pow256(n - 1) <= v < (first + 1) * Pow256(n - 1)
    ensures ToBytes(v, n)[0] == first
  {
    if n > 1 {
      assert Pow256(n - 1) == 256 * Pow256(n - 2);
      LeadingByte(v / 256, n - 1, first);
      assert ToBytes(v, n)[0] == ToBytes(v / 256, n - 1)[0];
    }
  }

  lemma {:induction false} TopBitsBound(b: Bytes)
    requires b != [] && b[0] < 64
    ensures FromBytes(b) < 64 * Pow256(|b| - 1)
  {
    if |b| > 1 {
      TopBitsBound(b[..|b| - 1]);
    }
  }

  lemma PowersOf256()
    ensures Pow256(0) == 1 && Pow256(1) == 0x100 && Pow256(3) == 0x100_0000
    ensures Pow256(7) == 0x100_0000_0000_0000 && Pow256(8) == 0x1_0000_0000_0000_0000
  {
    assert Pow256(2) == 0x1_0000;
    assert Pow256(4) == 0x1_0000_0000;
    assert Pow256(6) == 0x1_0000_0000_0000 by { assert Pow256(5) == 0x100_0000_0000; }
  }

  // ---------------------------------------------------------------- encoding and decoding

  predicate IsWidth(w: int) {
    w == 1 || w == 2 || w == 4 || w == 8
  }

  /** The length prefix in the two top bits of the first byte. */
  function Prefix(w: nat): (p: byte)
    requires IsWidth(w)
  {
    if w == 1 then 0 else if w == 2 then 0x40 else if w == 4 then 0x80 else 0xC0
  }

  function WidthOf(first: byte): (w: nat)
    ensures IsWidth(w)
  {
    if first < 0x40 then 1 else if first < 0x80 then 2 else if first < 0xC0 then 4 else 8
  }

  lemma FitsWidth(v: vint, w: nat)
    requires IsWidth(w)
    ensures VarintLen(v) <= w <==> v < 64 * Pow256(w - 1)
  {
    PowersOf256();
  }

  /** The encoding of `v` in `w` bytes, not necessarily the fewest. */
  function EncodeWidth(v: vint, w: nat): (b: Bytes)
    requires IsWidth(w) && VarintLen(v) <= w
    ensures |b| == w && WidthOf(b[0]) == w
  {
    var raw := ToBytes(v, w);
    FitsWidth(v, w);
    TopBits(v, w);
    [raw[0] + Prefix(w)] + raw[1..]
  }

  function EncV(v: vint): (b: Bytes)
    ensures |b| == VarintLen(v)
  {
    EncodeWidth(v, VarintLen(v))
  }

  lemma DivideTwice(v: nat)
    ensures v / 0x100 / 0x100 == v / 0x1_0000
    ensures v / 0x1_0000 / 0x100 == v / 0x100_0000
    ensures v / 0x100_0000 / 0x100 == v / 0x1_0000_0000
  {
  }

  lemma LastByte(v: nat, n: nat)
    ensures ToBytes(v, 0) == [] && ToBytes(v, n + 1) == ToBytes(v / 0x100, n) + [v % 0x100]
  {
  }

  lemma LastFour(v: nat, n: nat)
    ensures ToBytes(v, n + 4) ==
              ToBytes(v / 0x1_0000_0000, n)
              + [v / 0x100_0000 % 0x100, v / 0x1_0000 % 0x100, v / 0x100 % 0x100, v % 0x100]
  {
    hide ToBytes;
    DivideTwice(v);
    LastByte(v, n + 3);
    LastByte(v / 0x100, n + 2);
    LastByte(v / 0x1_0000, n + 1);
    LastByte(v / 0x100_0000, n);
  }

  lemma EmptyBytes()
    ensures forall v: nat :: ToBytes(v, 0) == []
  {
  }

  lemma AsOneOrTwoBytes(v: nat)
    ensures ToBytes(v, 1) == [v % 0x100] && ToBytes(v, 2) == [v / 0x100 % 0x100, v % 0x100]
  {
    hide ToBytes;
    EmptyBytes();
    LastByte(v, 0);
    LastByte(v, 1);
    LastByte(v / 0x100, 0);
  }

  lemma AsFourBytes(v: nat)
    ensures ToBytes(v, 4) == [v / 0x100_0000 % 0x100, v / 0x1_0000 % 0x100, v / 0x100 % 0x100, v % 0x100]
  {
    hide ToBytes;
    EmptyBytes();
    LastFour(v, 0);
  }

  lemma TwoHalves(v: nat)
    ensures ToBytes(v, 8) == ToBytes(v / 0x1_0000_0000, 4) + ToBytes(v, 4)
  {
    hide ToBytes;
    LastFour(v, 4);
    AsFourBytes(v);
  }

  lemma DivideFar(v: nat)
    ensures v / 0x1_0000_0000 / 0x100 == v / 0x100_0000_0000
    ensures v / 0x1_0000_0000 / 0x1_0000 == v / 0x1_0000_0000_0000
    ensures v / 0x1_0000_0000 / 0x100_0000 == v / 0x100_0000_0000_0000
  {
  }

  lemma LongLayout(v: vint)
    requires 0x4000_0000 <= v
    ensures EncV(v) == [0xC0 + v / 0x100_0000_0000_0000, v / 0x1_0000_0000_0000 % 0x100,
                        v / 0x100_0000_0000 % 0x100, v / 0x1_0000_0000 % 0x100,
                        v / 0x100_0000 % 0x100, v / 0x1_0000 % 0x100, v / 0x100 % 0x100, v % 0x100]
  {
    hide ToBytes, Pow256;
    DivideFar(v);
    assert v / 0x100_0000_0000_0000 < 0x40;
    AsFourBytes(v);
    TwoHalves(v);
    AsFourBytes(v / 0x1_0000_0000);
  }

  /** The bytes of section 16 of RFC 9000: two length bits and the number, most significant first. */
  lemma VarintLayout(v: vint)
    ensures v < 0x40 ==> EncV(v) == [v]
    ensures 0x40 <= v < 0x4000 ==> EncV(v) == [0x40 + v / 0x100, v % 0x100]
    ensures 0x4000 <= v < 0x4000_0000 ==>
              EncV(v) == [0x80 + v / 0x100_0000, v / 0x1_0000 % 0x100, v / 0x100 % 0x100, v % 0x100]
    ensures 0x4000_0000 <= v ==>
              EncV(v) == [0xC0 + v / 0x100_0000_0000_0000, v / 0x1_0000_0000_0000 % 0x100,
                          v / 0x100_0000_0000 % 0x100, v / 0x1_0000_0000 % 0x100,
                          v / 0x100_0000 % 0x100, v / 0x1_0000 % 0x100, v / 0x100 % 0x100, v % 0x100]
  {
    hide ToBytes, Pow256;
    AsOneOrTwoBytes(v);
    AsFourBytes(v);
    if v >= 0x4000_0000 {
      LongLayout(v);
    }
  }

  /** The value of one complete encoding: the prefix bits cleared. */
  function ValueOf(b: Bytes): (v: vint)
    requires b != [] && |b| == WidthOf(b[0])
  {
    var raw := [b[0] % 64] + b[1..];
    TopBitsBound(raw);
    PowersOf256();
    FromBytes(raw)
  }

  /** Reads one varint at the front of `b`: its value and its width; None when truncated. */
  function DecV(b: Bytes): (r: Option<(vint, nat)>)
    ensures r.Some? ==> 1 <= r.value.1 <= 8 && r.value.1 <= |b| && IsWidth(r.value.1)
  {
    if b == [] || |b| < WidthOf(b[0]) then None
    else Some((ValueOf(b[..WidthOf(b[0])]), WidthOf(b[0])))
  }

  lemma WidthRoundTrip(v: vint, w: nat)
    requires IsWidth(w) && VarintLen(v) <= w
    ensures ValueOf(EncodeWidth(v, w)) == v
  {
    var raw := ToBytes(v, w);
    FitsWidth(v, w);
    TopBits(v, w);
    var b := EncodeWidth(v, w);
    assert [b[0] % 64] + b[1..] == raw;
    FromToBytes(v, w);
  }

  /** Any width of encoding reads back, whatever follows it. */
  lemma DecodeWidth(v: vint, w: nat, tail: Bytes)
    requires IsWidth(w) && VarintLen(v) <= w
    ensures DecV(EncodeWidth(v, w) + tail) == Some((v, w))
  {
    var b := EncodeWidth(v, w);
    assert (b + tail)[..w] == b;
    WidthRoundTrip(v, w);
  }

  lemma DecodeEncode(v: vint, tail: Bytes)
    ensures DecV(EncV(v) + tail) == Some((v, |EncV(v)|))
  {
    DecodeWidth(v, VarintLen(v), tail);
  }

  /** Every accepted encoding is the one of its value in its own width, and the minimal
      encoding is a canonical form of it. */
  lemma DecodeIsEncode(b: Bytes)
    requires DecV(b).Some?
    ensures var (v, w) := DecV(b).value;
            VarintLen(v) <= w && EncodeWidth(v, w) == b[..w] && Shrinks(EncV(v), b[..w])
  {
    var (v, w) := DecV(b).value;
    var enc := b[..w];
    var raw := [enc[0] % 64] + enc[1..];
    ToFromBytes(raw);
    TopBitsBound(raw);
    FitsWidth(v, w);
    assert ToBytes(v, w) == raw;
  }

  /** A varint is read from its own bytes alone. */
  lemma DecodePrefix(b: Bytes, n: nat)
    requires n <= |b|
    ensures DecV(b[..n]).Some? ==> DecV(b) == DecV(b[..n])
    ensures DecV(b).Some? && DecV(b).value.1 <= n ==> DecV(b[..n]) == DecV(b)
    ensures DecV(b).Some? && DecV(b).value.1 > n ==> DecV(b[..n]).None?
  {
    if n > 0 && WidthOf(b[0]) <= n {
      assert b[..n][..WidthOf(b[0])] == b[..WidthOf(b[0])];
    }
  }

  // ---------------------------------------------------------------- the functions of varint.py

  /** encode_varint with its optional forced width; None when it raises ValueError. */
  method EncodeVarint(value: int, length: Option<int>) returns (r: Option<Bytes>)
    ensures r.Some? <==> IsVarint(value) &&
                         (length.Some? ==> IsWidth(length.value) && VarintLen(value) <= length.value)
    ensures r.Some? ==> DecV(r.value) == Some((value, |r.value|))
    ensures r.Some? ==> r.value == EncodeWidth(value, length.GetOr(VarintLen(value)))
    ensures r.Some? && length.None? ==> r.value == EncV(value)
  {
    if !IsVarint(value) {
      return None;
    }
    var need := VarintLen(value);
    var len := length.GetOr(need);
    if !IsWidth(len) || len < need {
      return None;
    }
    DecodeWidth(value, len, []);
    assert EncodeWidth(value, len) + [] == EncodeWidth(value, len);
    return Some(EncodeWidth(value, len));
  }

  /** decode_varint: bounded by the buffer, with the value accumulated byte by byte. */
  method DecodeVarint(buf: Bytes, pos: nat, code: Code) returns (r: Result<vint>, newPos: nat, width: nat)
    ensures r.Err? <==> pos >= |buf| || DecV(buf[pos..]).None?
    ensures r.Err? ==> r.code == code
    ensures r.Ok? ==> DecV(buf[pos..]) == Some((r.value, width)) && newPos == pos + width
  {
    newPos, width := pos, 0;
    if pos >= |buf| {
      return Err(code), pos, 0;
    }
    var first := buf[pos];
    width := WidthOf(first);
    if pos + width > |buf| {
      return Err(code), pos, width;
    }
    ghost var enc := buf[pos..][..width];
    ghost var raw := [enc[0] % 64] + enc[1..];
    var value: int := first % 64;
    var i := pos + 1;
    while i < pos + width
      invariant pos + 1 <= i <= pos + width
      invariant value == FromBytes(raw[..i - pos])
    {
      value := value * 256 + buf[i];
      assert raw[..i + 1 - pos][..i - pos] == raw[..i - pos] && raw[i - pos] == buf[i];
      i := i + 1;
    }
    assert raw[..width] == raw && value == ValueOf(enc);
    return Ok(value), pos + width, width;
  }
}
