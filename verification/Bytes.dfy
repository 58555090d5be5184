/** Bytes, big-endian numbers and searches in byte strings. */
module Bytes {
  import opened Wrappers

  type byte = x: int | 0 <= x < 256

  /** The number a big-endian byte string stands for. */
  function BigEndian(b: seq<byte>): nat {
    if b == [] then 0 else BigEndian(b[..|b| - 1]) * 256 + b[|b| - 1]
  }

  /** `n` in exactly `width` bytes, most significant first. */
  function ToBigEndian(n: nat, width: nat): (b: seq<byte>)
    ensures |b| == width
  {
    if width == 0 then [] else ToBigEndian(n / 256, width - 1) + [n % 256]
  }

  function Power256(width: nat): nat {
    if width == 0 then 1 else 256 * Power256(width - 1)
  }

  lemma {:induction false} BigEndianRoundTrip(n: nat, width: nat)
    requires n < Power256(width)
    ensures BigEndian(ToBigEndian(n, width)) == n
  {
    if width != 0 {
      BigEndianRoundTrip(n / 256, width - 1);
      var b := ToBigEndian(n, width);
      assert b[..|b| - 1] == ToBigEndian(n / 256, width - 1);
    }
  }

  /** Re-encoding a byte string's number gives the byte string back. */
  lemma {:induction false} BigEndianInverse(b: seq<byte>)
    ensures BigEndian(b) < Power256(|b|) && ToBigEndian(BigEndian(b), |b|) == b
  {
    if b != [] {
      BigEndianInverse(b[..|b| - 1]);
    }
  }

  /** The first byte counts `256` to the number of bytes after it, so the order is most significant first. */
  lemma {:induction false} BigEndianPlaces(first: byte, rest: seq<byte>)
    ensures BigEndian([first] + rest) == first * Power256(|rest|) + BigEndian(rest)
  {
    var all := [first] + rest;
    if rest == [] {
      assert all[..0] == [];
    } else {
      var init, last := rest[..|rest| - 1], rest[|rest| - 1];
      assert all[..|all| - 1] == [first] + init;
      BigEndianPlaces(first, init);
      assert (first * Power256(|init|)) * 256 == first * (256 * Power256(|init|));
    }
  }

  /** The bytes of a text of ASCII characters. */
  function Ascii(text: string): (bytes: seq<byte>)
    ensures |bytes| == |text|
  {
    seq(|text|, i requires 0 <= i < |text| => if text[i] as int < 256 then text[i] as int else 0)
  }

  /** Four bytes, read as one number. */
  lemma FourBytes(b: seq<byte>)
    requires |b| == 4
    ensures BigEndian(b) == b[0] as int * 16777216 + b[1] as int * 65536 + b[2] as int * 256 + b[3]
  {
    assert b[..3][..2][..1] == [b[0]] && b[..3][..2] == b[..2] && b[..2][..1] == b[..1];
    assert BigEndian(b[..1]) == b[0] && BigEndian(b[..2]) == BigEndian(b[..1]) * 256 + b[1];
    assert BigEndian(b[..3]) == BigEndian(b[..2]) * 256 + b[2];
  }

  predicate OccursAt(text: seq<byte>, pattern: seq<byte>, at: nat) {
    at + |pattern| <= |text| && text[at..at + |pattern|] == pattern
  }

  /** The first place at or after `from` where `pattern` occurs. */
  function IndexOf(text: seq<byte>, pattern: seq<byte>, from: nat): (at: Option<nat>)
    ensures at.Some? ==> from <= at.value && OccursAt(text, pattern, at.value)
    ensures forall k: nat :: from <= k && (at.Some? ==> k < at.value) ==> !OccursAt(text, pattern, k)
    decreases |text| - from
  {
    if from + |pattern| > |text| then None
    else if text[from..from + |pattern|] == pattern then Some(from)
    else IndexOf(text, pattern, from + 1)
  }

  lemma FirstFound(text: seq<byte>, pattern: seq<byte>, at: nat)
    requires OccursAt(text, pattern, at) && forall k: nat :: k < at ==> !OccursAt(text, pattern, k)
    ensures IndexOf(text, pattern, 0) == Some(at)
  {
  }

  /** What is found in a text is found there in every longer text. */
  lemma {:induction false} IndexOfPrefix(text: seq<byte>, more: seq<byte>, pattern: seq<byte>, from: nat)
    requires IndexOf(text, pattern, from).Some?
    ensures IndexOf(text + more, pattern, from) == IndexOf(text, pattern, from)
    decreases |text| - from
  {
    assert (text + more)[from..from + |pattern|] == text[from..from + |pattern|];
    if text[from..from + |pattern|] != pattern {
      IndexOfPrefix(text, more, pattern, from + 1);
    }
  }

  /** Byte strings put end to end. */
  function Concat(parts: seq<seq<byte>>): seq<byte> {
    if parts == [] then [] else Concat(parts[..|parts| - 1]) + parts[|parts| - 1]
  }

  function Pow2(width: nat): nat {
    if width == 0 then 1 else 2 * Pow2(width - 1)
  }

  /** Bitwise exclusive or of the low `width` bits. */
  function XorBits(a: nat, b: nat, width: nat): (x: nat)
    ensures x < Pow2(width)
  {
    if width == 0 then 0 else (a + b) % 2 + 2 * XorBits(a / 2, b / 2, width - 1)
  }

  lemma Halve(low: nat, high: nat, a: nat, b: nat)
    requires low == (a + b) % 2
    ensures (low + 2 * high) / 2 == high
    ensures (low + 2 * high + b) % 2 == a % 2
  {
  }

  lemma {:induction false} XorBitsTwice(a: nat, b: nat, width: nat)
    requires a < Pow2(width)
    ensures XorBits(XorBits(a, b, width), b, width) == a
  {
    if width != 0 {
      XorBitsTwice(a / 2, b / 2, width - 1);
      Halve((a + b) % 2, XorBits(a / 2, b / 2, width - 1), a, b);
    }
  }

  lemma {:induction false} XorBitsCommutes(a: nat, b: nat, width: nat)
    ensures XorBits(a, b, width) == XorBits(b, a, width)
  {
    if width != 0 {
      XorBitsCommutes(a / 2, b / 2, width - 1);
    }
  }

  /** Bit `i` of a number: shifted right that far, the lowest one. */
  function Bit(n: nat, i: nat): (bit: nat)
    ensures bit < 2
  {
    if i == 0 then n % 2 else Bit(n / 2, i - 1)
  }

  type BitTest = nat -> bool

  /** The tests of all bits but the lowest. */
  function Above(test: BitTest): BitTest { (i: nat) => test(i + 1) }

  /** The number whose low `width` bits are those that pass a test. */
  function FromBits(test: BitTest, width: nat): nat {
    if width == 0 then 0 else (if test(0) then 1 else 0) + 2 * FromBits(Above(test), width - 1)
  }

  /** Whether two numbers differ in a bit. */
  function Differ(a: nat, b: nat): BitTest { (i: nat) => Bit(a, i) != Bit(b, i) }

  /** Bit by bit: a bit of the exclusive or is 1 exactly when the two bits differ. */
  lemma {:induction false} XorBit(a: nat, b: nat, width: nat, i: nat)
    requires i < width
    ensures Bit(XorBits(a, b, width), i) == if Bit(a, i) != Bit(b, i) then 1 else 0
    decreases width
  {
    var high := XorBits(a / 2, b / 2, width - 1);
    assert XorBits(a, b, width) == (a + b) % 2 + 2 * high;
    if i > 0 {
      assert ((a + b) % 2 + 2 * high) / 2 == high;
      XorBit(a / 2, b / 2, width - 1, i - 1);
    }
  }

  /** A number within the width is what its bits make. */
  lemma {:induction false} BitsMake(n: nat, width: nat, test: BitTest)
    requires n < Pow2(width) && forall i: nat :: i < width ==> (test(i) <==> Bit(n, i) == 1)
    ensures n == FromBits(test, width)
  {
    if width != 0 {
      assert test(0) <==> Bit(n, 0) == 1;
      forall i: nat | i < width - 1
        ensures Above(test)(i) <==> Bit(n / 2, i) == 1
      {
        assert test(i + 1) <==> Bit(n, i + 1) == 1;
      }
      BitsMake(n / 2, width - 1, Above(test));
    }
  }

  /** So the exclusive or is the number made of the bits in which the two differ. */
  lemma XorDiffers(a: nat, b: nat, width: nat)
    ensures XorBits(a, b, width) == FromBits(Differ(a, b), width)
  {
    forall i: nat | i < width
      ensures Differ(a, b)(i) <==> Bit(XorBits(a, b, width), i) == 1
    {
      XorBit(a, b, width, i);
    }
    BitsMake(XorBits(a, b, width), width, Differ(a, b));
  }

  lemma {:induction false} FromBitsFits(test: BitTest, width: nat)
    ensures FromBits(test, width) < Pow2(width)
  {
    if width != 0 {
      FromBitsFits(Above(test), width - 1);
    }
  }

  /** Exclusive or of two bytes. */
  function Xor(a: byte, b: byte): byte {
    assert Pow2(8) == 256;
    XorBits(a, b, 8)
  }

  lemma XorTwice(a: byte, b: byte)
    ensures Xor(Xor(a, b), b) == a
  {
    assert Pow2(8) == 256;
    XorBitsTwice(a, b, 8);
  }
}
