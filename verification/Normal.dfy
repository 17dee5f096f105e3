/** What encoded frames come back as: REPEAT expanded, flag bits explicit, PADDING merged. */
module Normal {
  import opened Base
  import opened Varint
  import opened Fields
  import opened Frames
  import opened Canonical

  /** The frame with every key that the decoder fills in. An offset that the flags leave out
      of the encoding is lost. */
  function Explicit(f: Frame): Frame {
    match f
    case Stream(id, off, _, _, fin, data) =>
      Stream(id, if HasOff(f) then off else 0, Some(HasOff(f)), Some(HasLen(f)), fin, data)
    case Datagram(_, data) => Datagram(Some(HasLen(f)), data)
    case ConnectionClose(app, code, frameType, reason) =>
      ConnectionClose(app, code, if app then None else Some(frameType.GetOr(0)), reason)
    case _ => f
  }

  function Copies(fs: seq<Frame>, n: int): seq<Frame> {
    if n <= 0 then [] else fs + Copies(fs, n - 1)
  }

  /** One frame as the list of frames that its bytes hold. */
  function Expand(f: Frame): seq<Frame> {
    match f
    case Repeat(n, g) => Copies(Expand(g), n)
    case Padding(n) => if n <= 0 then [] else [f]
    case _ => [Explicit(f)]
  }

  function ExpandAll(fs: seq<Frame>): seq<Frame> {
    if fs == [] then [] else Expand(fs[0]) + ExpandAll(fs[1..])
  }

  /** Adjacent PADDING frames become one. */
  function Merge(fs: seq<Frame>): seq<Frame> {
    if fs == [] then []
    else
      var rest := Merge(fs[1..]);
      if fs[0].Padding? && rest != [] && rest[0].Padding?
      then [Padding(fs[0].count + rest[0].count)] + rest[1..]
      else [fs[0]] + rest
  }

  function NormalForm(fs: seq<Frame>): seq<Frame> {
    Merge(ExpandAll(fs))
  }

  // ---------------------------------------------------------------- the same bytes

  lemma ExplicitWire(f: Frame)
    requires Encodable(f) && !f.Repeat? && !f.Padding?
    ensures Encodable(Explicit(f)) && Wire(Explicit(f)) == Wire(f)
  {
    hide Print, EncV;
    if f.Stream? || f.Datagram? || f.ConnectionClose? {
      assert FieldsOf(Explicit(f)) == FieldsOf(f) && TypeCode(Explicit(f)) == TypeCode(f);
    }
  }

  lemma {:induction false} WireCopies(fs: seq<Frame>, n: int)
    requires AllEncodable(fs)
    ensures AllEncodable(Copies(fs, n)) && WireAll(Copies(fs, n)) == Times(WireAll(fs), n)
    decreases if n > 0 then n else 0
  {
    if n > 0 {
      WireCopies(fs, n - 1);
      WireAppend(fs, Copies(fs, n - 1));
    }
  }

  lemma {:induction false} ExpandWire(f: Frame)
    requires Encodable(f)
    ensures AllEncodable(Expand(f)) && WireAll(Expand(f)) == Wire(f)
  {
    hide FieldsOf, TypeCode, Print, Explicit;
    match f
    case Repeat(n, g) =>
      ExpandWire(g);
      WireCopies(Expand(g), n);
    case Padding(n) => SingleWire(f);
    case _ =>
      ExplicitWire(f);
      SingleWire(Explicit(f));
  }

  lemma {:induction false} ExpandAllWire(fs: seq<Frame>)
    requires AllEncodable(fs)
    ensures AllEncodable(ExpandAll(fs)) && WireAll(ExpandAll(fs)) == WireAll(fs)
  {
    hide Wire, Encodable, Expand;
    if fs == [] {
    } else {
      ExpandWire(fs[0]);
      ExpandAllWire(fs[1..]);
      WireAppend(Expand(fs[0]), ExpandAll(fs[1..]));
    }
  }

  lemma {:induction false} ZerosAppend(m: int, n: int)
    requires m >= 0 && n >= 0
    ensures Zeros(m) + Zeros(n) == Zeros(m + n)
  {
    if m > 0 {
      ZerosAppend(m - 1, n);
      assert Zeros(m) + Zeros(n) == [0] + (Zeros(m - 1) + Zeros(n));
    } else {
      assert Zeros(m) + Zeros(n) == Zeros(n);
    }
  }

  predicate PositivePadding(fs: seq<Frame>) {
    forall i :: 0 <= i < |fs| ==> fs[i].Padding? ==> fs[i].count > 0
  }

  lemma {:induction false} MergeWire(fs: seq<Frame>)
    requires AllEncodable(fs) && PositivePadding(fs)
    ensures AllEncodable(Merge(fs)) && PositivePadding(Merge(fs)) && WireAll(Merge(fs)) == WireAll(fs)
  {
    hide FieldsOf, TypeCode, Print;
    if fs != [] {
      MergeWire(fs[1..]);
      var rest := Merge(fs[1..]);
      if fs[0].Padding? && rest != [] && rest[0].Padding? {
        var m, n := fs[0].count, rest[0].count;
        ZerosAppend(m, n);
        assert Merge(fs)[1..] == rest[1..];
        assert Zeros(m) + (Zeros(n) + WireAll(rest[1..])) == Zeros(m + n) + WireAll(rest[1..]);
      } else {
        assert Merge(fs)[1..] == rest;
      }
    }
  }

  lemma {:induction false} CopiesPadding(fs: seq<Frame>, n: int)
    requires PositivePadding(fs)
    ensures PositivePadding(Copies(fs, n))
    decreases if n > 0 then n else 0
  {
    if n > 0 {
      CopiesPadding(fs, n - 1);
    }
  }

  lemma {:induction false} ExpandPaddingOne(f: Frame)
    ensures PositivePadding(Expand(f))
  {
    match f
    case Repeat(n, g) =>
      ExpandPaddingOne(g);
      CopiesPadding(Expand(g), n);
    case _ =>
  }

  lemma {:induction false} ExpandPadding(fs: seq<Frame>)
    ensures PositivePadding(ExpandAll(fs))
  {
    if fs == [] {
    } else {
      ExpandPaddingOne(fs[0]);
      ExpandPadding(fs[1..]);
    }
  }

  /** The normal form of what is sent has the bytes that are sent. */
  lemma NormalWire(fs: seq<Frame>)
    requires AllEncodable(fs)
    ensures AllEncodable(NormalForm(fs)) && WireAll(NormalForm(fs)) == WireAll(fs)
  {
    hide Encodable;
    ExpandAllWire(fs);
    ExpandPadding(fs);
    MergeWire(ExpandAll(fs));
  }

  // ---------------------------------------------------------------- what a receiver accepts

  /** The frames, once expanded, are well formed, pass the receiver's gates and limits, and
      only the last of them has no Length. */
  predicate Sendable(fs: seq<Frame>, enabled: Gates, limit: Option<int>) {
    && (forall i :: 0 <= i < |fs| ==> FrameWellFormed(fs[i]) && Passes(fs[i], enabled, limit))
    && (forall i :: 0 <= i < |fs| - 1 ==> !TakesRest(fs[i]))
  }

  lemma PaddingPasses(n: int, enabled: Gates, limit: Option<int>)
    requires n > 0
    ensures FrameWellFormed(Padding(n)) && Passes(Padding(n), enabled, limit) && !TakesRest(Padding(n))
  {
  }

  lemma {:induction false} MergePositive(fs: seq<Frame>)
    requires PositivePadding(fs)
    ensures PositivePadding(Merge(fs))
  {
    if fs == [] {
    } else {
      MergePositive(fs[1..]);
    }
  }

  lemma SendableStep(fs: seq<Frame>, enabled: Gates, limit: Option<int>)
    requires fs != []
    ensures Sendable(fs, enabled, limit) <==>
              && FrameWellFormed(fs[0]) && Passes(fs[0], enabled, limit)
              && (|fs| > 1 ==> !TakesRest(fs[0])) && Sendable(fs[1..], enabled, limit)
  {
    hide FrameWellFormed, Passes, TakesRest;
    if Sendable(fs[1..], enabled, limit) && FrameWellFormed(fs[0]) && Passes(fs[0], enabled, limit)
       && (|fs| > 1 ==> !TakesRest(fs[0])) {
      forall i | 0 <= i < |fs| ensures FrameWellFormed(fs[i]) && Passes(fs[i], enabled, limit) {
        if i > 0 {
          assert fs[i] == fs[1..][i - 1];
        }
      }
      forall i | 0 <= i < |fs| - 1 ensures !TakesRest(fs[i]) {
        if i > 0 {
          assert fs[i] == fs[1..][i - 1];
        }
      }
    }
  }

  lemma {:induction false} MergeReturnable(fs: seq<Frame>, enabled: Gates, limit: Option<int>)
    requires PositivePadding(fs)
    ensures Returnable(Merge(fs), enabled, limit) <==> Sendable(fs, enabled, limit)
    ensures fs != [] ==> Merge(fs) != [] && (Merge(fs)[0].Padding? <==> fs[0].Padding?)
  {
    hide FrameWellFormed, Passes, TakesRest;
    if fs == [] {
    } else {
      var rest := Merge(fs[1..]);
      MergeReturnable(fs[1..], enabled, limit);
      SendableStep(fs, enabled, limit);
      if fs[0].Padding? && rest != [] && rest[0].Padding? {
        PaddingPasses(fs[0].count, enabled, limit);
        assert rest[0].count > 0 by { MergePositive(fs[1..]); }
        PaddingPasses(rest[0].count, enabled, limit);
        PaddingPasses(fs[0].count + rest[0].count, enabled, limit);
        assert Merge(fs)[1..] == rest[1..];
      } else {
        assert Merge(fs)[1..] == rest;
      }
    }
  }

  /** The decoder inverts the encoder: the frames that were sent come back in normal form,
      exactly when the expanded frames are sendable to this receiver. */
  lemma DecodeInvertsEncode(fs: seq<Frame>, enabled: Gates, limit: Option<int>)
    requires AllEncodable(fs)
    ensures DecodeFramesSpec(WireAll(fs), enabled, limit) == Ok(NormalForm(fs)) <==>
              Sendable(ExpandAll(fs), enabled, limit)
  {
    hide FrameWellFormed, Passes, TakesRest, Encodable, DecodeFramesSpec, WireAll;
    hide Merge, ExpandAll, Sendable, Returnable;
    NormalWire(fs);
    ExpandPadding(fs);
    MergeReturnable(ExpandAll(fs), enabled, limit);
    if Sendable(ExpandAll(fs), enabled, limit) {
      ListRoundTrip(NormalForm(fs), enabled, limit);
    } else if DecodeFramesSpec(WireAll(fs), enabled, limit) == Ok(NormalForm(fs)) {
      ListShrinks(WireAll(fs), enabled, limit);
    }
  }

  lemma WellFormedExplicit(f: Frame)
    requires FrameWellFormed(f)
    ensures Expand(f) == [f]
  {
    hide Encodable;
  }

  /** A list that can be returned is its own normal form. */
  lemma {:induction false} ReturnableIsNormal(fs: seq<Frame>, enabled: Gates, limit: Option<int>)
    requires Returnable(fs, enabled, limit)
    ensures NormalForm(fs) == fs
  {
    hide Encodable, Passes;
    if fs == [] {
    } else {
      ReturnableIsNormal(fs[1..], enabled, limit);
      assert Expand(fs[0]) == [fs[0]] by { WellFormedExplicit(fs[0]); }
      assert ExpandAll(fs) == [fs[0]] + ExpandAll(fs[1..]);
      assert ExpandAll(fs)[1..] == ExpandAll(fs[1..]);
      assert fs == [fs[0]] + fs[1..];
    }
  }
}
