/**
 Big-endian byte strings: fixed-width encoding, the canonical form a P4Runtime server reads back
 (leading zero bytes stripped, section 8.4 of the P4Runtime specification), and padding.
 */
module Bytes {

  type Byte = b: int | 0 <= b < 256

  /** The four octets of an IPv4 address. */
  type Ip4 = s: seq<Byte> | |s| == 4 witness [0, 0, 0, 0]

  function Pow256(n: nat): (r: nat)
    ensures r > 0
  {
    if n == 0 then 1 else 256 * Pow256(n - 1)
  }

  function Value(b: seq<Byte>): (n: nat)
  {
    if b == [] then 0 else 256 * Value(b[..|b| - 1]) + b[|b| - 1]
  }

  function ToBytes(n: nat, width: nat): (b: seq<Byte>)
    requires n < Pow256(width)
    ensures |b| == width && Value(b) == n
  {
    if width == 0 then [] else
      var hi := ToBytes(n / 256, width - 1);
      var b := hi + [n % 256];
      assert b[..|b| - 1] == hi;
      b
  }

  lemma {:induction false} ValueBound(b: seq<Byte>)
    ensures Value(b) < Pow256(|b|)
    decreases |b|
  {
    if b != [] {
      ValueBound(b[..|b| - 1]);
    }
  }

  /** Strings of equal width are told apart by their value. */
  lemma {:induction false} ValueInjective(a: seq<Byte>, b: seq<Byte>)
    requires |a| == |b| && Value(a) == Value(b)
    ensures a == b
    decreases |a|
  {
    if a != [] {
      ValueInjective(a[..|a| - 1], b[..|b| - 1]);
      assert a == a[..|a| - 1] + [a[|a| - 1]] && b == b[..|b| - 1] + [b[|b| - 1]];
    }
  }

  lemma {:induction false} LeadingZero(b: seq<Byte>)
    ensures Value([0] + b) == Value(b)
    decreases |b|
  {
    if b != [] {
      LeadingZero(b[..|b| - 1]);
      assert ([0] + b)[..|b|] == [0] + b[..|b| - 1];
    } else {
      assert ([0] + b)[..0] == [];
    }
  }

  /** The canonical form: leading zero bytes dropped, at least one byte kept. */
  function Strip(b: seq<Byte>): (s: seq<Byte>)
    ensures |s| <= |b|
  {
    if |b| > 1 && b[0] == 0 then Strip(b[1..]) else b
  }

  function PadTo(b: seq<Byte>, width: nat): (r: seq<Byte>)
    ensures |r| == if |b| < width then width else |b|
    decreases width - |b|
  {
    if |b| < width then PadTo([0] + b, width) else b
  }

  lemma {:induction false} StripValue(b: seq<Byte>)
    ensures Value(Strip(b)) == Value(b)
    decreases |b|
  {
    if |b| > 1 && b[0] == 0 {
      StripValue(b[1..]);
      LeadingZero(b[1..]);
      assert b == [0] + b[1..];
    }
  }

  lemma {:induction false} PadValue(b: seq<Byte>, width: nat)
    ensures Value(PadTo(b, width)) == Value(b)
    decreases width - |b|
  {
    if |b| < width {
      PadValue([0] + b, width);
      LeadingZero(b);
    }
  }

  /** Padding the canonical form back to the field's width restores the written bytes. */
  lemma PadUndoesStrip(b: seq<Byte>)
    ensures PadTo(Strip(b), |b|) == b
  {
    StripValue(b);
    PadValue(Strip(b), |b|);
    ValueInjective(PadTo(Strip(b), |b|), b);
  }
}
