/** Bytes, results and the order "no longer, and equal when as long" on encodings. */
module Base {
  type byte = i: int | 0 <= i < 256
  type Bytes = seq<byte>

  datatype Option<+T> = None | Some(value: T) {
    predicate IsFailure() {
      None?
    }

    function PropagateFailure<U>(): Option<U>
      requires None?
    {
      None
    }

    function Extract(): T
      requires Some?
    {
      value
    }

    function GetOr(default: T): T {
      if Some? then value else default
    }
  }

  /** The transport error code a DecodeError carries; its reason text is not modelled. */
  datatype Code = FrameEncodingError | ProtocolViolation | TransportParameterError

  datatype Result<+T> = Ok(value: T) | Err(code: Code) {
    predicate IsFailure() {
      Err?
    }

    function PropagateFailure<U>(): Result<U>
      requires Err?
    {
      Err(code)
    }

    function Extract(): T
      requires Ok?
    {
      value
    }
  }

  /** `a` is a canonical form of `b`: never longer, and the same bytes when equally long. */
  predicate Shrinks(a: Bytes, b: Bytes) {
    |a| <= |b| && (|a| == |b| ==> a == b)
  }

  lemma ShrinksConcat(a: Bytes, b: Bytes, c: Bytes, d: Bytes)
    requires Shrinks(a, b) && Shrinks(c, d)
    ensures Shrinks(a + c, b + d)
  {
  }

  lemma Cut(b: Bytes, n: nat, k: nat)
    requires n + k <= |b|
    ensures b[..n + k] == b[..n] + b[n..][..k]
  {
  }

  lemma AppendDrop(a: Bytes, b: Bytes)
    ensures (a + b)[|a|..] == b && (a + b)[..|a|] == a
  {
  }

  lemma AppendAssoc(a: Bytes, b: Bytes, c: Bytes)
    ensures a + b + c == a + (b + c)
  {
  }

  lemma SliceOfSlice(b: Bytes, lo: nat, hi: nat, i: nat, j: nat)
    requires lo <= hi <= |b| && i <= j <= hi - lo
    ensures b[lo..hi][i..j] == b[lo + i..lo + j]
  {
    var x, y := b[lo..hi][i..j], b[lo + i..lo + j];
    assert forall k :: 0 <= k < j - i ==> x[k] == y[k];
  }

  lemma DropSlice(b: Bytes, n: nat, i: nat, j: nat)
    requires i <= j <= |b| - n
    ensures b[n..][i..j] == b[n + i..n + j]
  {
    SliceOfSlice(b, n, |b|, i, j);
    assert b[n..|b|] == b[n..];
  }

  lemma DropDrop(b: Bytes, i: nat, j: nat)
    requires i + j <= |b|
    ensures b[i..][j..] == b[i + j..]
  {
  }

  /** The bytes buf[pos:end] in the sense of Python: empty once pos has passed end. */
  function Slice(buf: Bytes, pos: nat, end: nat): Bytes
    requires end <= |buf|
  {
    if pos <= end then buf[pos..end] else []
  }
}
