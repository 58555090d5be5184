/**
 * The surface hash of the broker contract (`fnv1a32` in contracts/generated/broker-client.snapshot.ts): 32-bit FNV-1a
 * over UTF-16 code units, as in section 2 of draft-eastlake-fnv with the unit in the octet's place.
 */
module Fnv {
  import opened Bytes

  const TWO32 := 0x1_0000_0000
  const OFFSET := 0x811c9dc5
  const PRIME := 0x0100_0193
  const INVERSE := 0x359c_449b

  /** A UTF-16 code unit. */
  type unit16 = x: int | 0 <= x < 0x1_0000

  type word = x: int | 0 <= x < TWO32

  lemma Width()
    ensures Pow2(32) == TWO32
  {
    assert Pow2(8) == 0x100;
    assert Pow2(16) == 0x1_0000;
    assert Pow2(24) == 0x100_0000;
  }

  function Xor32(a: word, b: word): word {
    Width();
    XorBits(a, b, 32)
  }

  function Times(a: word, b: word): word { (a * b) % TWO32 }

  function Mix(hash: word, unit: unit16): word { Times(Xor32(hash, unit), PRIME) }

  function HashFrom(hash: word, text: seq<unit16>): word {
    if text == [] then hash else Mix(HashFrom(hash, text[..|text| - 1]), text[|text| - 1])
  }

  function Hash(text: seq<unit16>): word { HashFrom(OFFSET, text) }

  // ---------------------------------------------------------------- each step is a bijection

  lemma Remainder(n: int, q: int, r: word)
    requires n == q * TWO32 + r
    ensures n % TWO32 == r
  {
  }

  /** Multiplying by the prime is undone by its inverse. */
  lemma TimesUndone(x: word)
    ensures Times(Times(x, PRIME), INVERSE) == x
  {
    var q, r := x * PRIME / TWO32, Times(x, PRIME);
    assert r == x * PRIME - q * TWO32;
    assert PRIME * INVERSE == 3_513_497 * TWO32 + 1;
    assert r * INVERSE == x + TWO32 * (3_513_497 * x - q * INVERSE);
    Remainder(r * INVERSE, 3_513_497 * x - q * INVERSE, x);
  }

  /** The state before a step, from the state after it and the unit taken in. */
  function Unmix(hash: word, unit: unit16): word { Xor32(Times(hash, INVERSE), unit) }

  lemma XorUndone(a: word, b: word)
    ensures Xor32(Xor32(a, b), b) == a
  {
    Width();
    XorBitsTwice(a, b, 32);
  }

  lemma MixUndone(hash: word, unit: unit16)
    ensures Unmix(Mix(hash, unit), unit) == hash
  {
    TimesUndone(Xor32(hash, unit));
    XorUndone(hash, unit);
  }

  /** Different units lead from one state to different states. */
  lemma UnitTells(hash: word, a: unit16, b: unit16)
    requires Mix(hash, a) == Mix(hash, b)
    ensures a == b
  {
    Width();
    TimesUndone(Xor32(hash, a));
    TimesUndone(Xor32(hash, b));
    XorBitsCommutes(hash, a, 32);
    XorBitsCommutes(hash, b, 32);
    XorBitsTwice(a, hash, 32);
    XorBitsTwice(b, hash, 32);
  }

  /** Different states stay different through any text. */
  lemma {:induction false} StatesStayApart(a: word, b: word, text: seq<unit16>)
    requires HashFrom(a, text) == HashFrom(b, text)
    ensures a == b
  {
    if text != [] {
      var init, last := text[..|text| - 1], text[|text| - 1];
      MixUndone(HashFrom(a, init), last);
      MixUndone(HashFrom(b, init), last);
      StatesStayApart(a, b, init);
    }
  }

  lemma {:induction false} HashAppend(hash: word, a: seq<unit16>, b: seq<unit16>)
    ensures HashFrom(hash, a + b) == HashFrom(HashFrom(hash, a), b)
    decreases |b|
  {
    if b == [] {
      assert a + b == a;
    } else {
      assert (a + b)[..|a + b| - 1] == a + b[..|b| - 1];
      HashAppend(hash, a, b[..|b| - 1]);
    }
  }

  /** Two texts that differ in exactly one unit have different hashes. */
  lemma OneChangeTells(before: seq<unit16>, a: unit16, b: unit16, after: seq<unit16>)
    requires a != b
    ensures Hash(before + [a] + after) != Hash(before + [b] + after)
  {
    HashAppend(OFFSET, before + [a], after);
    HashAppend(OFFSET, before + [b], after);
    HashOne(before, a);
    HashOne(before, b);
    if Hash(before + [a] + after) == Hash(before + [b] + after) {
      StatesStayApart(Mix(Hash(before), a), Mix(Hash(before), b), after);
      UnitTells(Hash(before), a, b);
    }
  }

  lemma HashOne(before: seq<unit16>, unit: unit16)
    ensures HashFrom(OFFSET, before + [unit]) == Mix(Hash(before), unit)
  {
    assert (before + [unit])[..|before|] == before;
  }

  // ---------------------------------------------------------------- the step and the text, from their definitions

  /**
   * FNV-1a by its definition: start at 2166136261; for each unit flip the bits set in it, then multiply by 16777619 and
   * keep 32 bits.
   */
  lemma HashStep(text: seq<unit16>, unit: unit16)
    ensures Hash([]) == 2166136261
    ensures Hash(text + [unit]) == FromBits(Differ(Hash(text), unit), 32) * 16777619 % 4294967296
  {
    HashOne(text, unit);
    Width();
    XorDiffers(Hash(text), unit, 32);
  }

  // ---------------------------------------------------------------- eight hex digits

  function HexDigit(n: nat): char
    requires n < 16
  {
    if n < 10 then '0' + n as char else 'a' + (n - 10) as char
  }

  /** `toString(16)`: no leading zeros. */
  function Hex(n: nat): (text: string)
    ensures text != []
  {
    if n < 16 then [HexDigit(n)] else Hex(n / 16) + [HexDigit(n % 16)]
  }

  function PadStart(text: string, width: nat): string
    decreases width - |text|
  {
    if |text| >= width then text else PadStart(['0'] + text, width)
  }

  /** Exactly `width` hex digits of the number's low end. */
  function Digits(n: nat, width: nat): (text: string)
    ensures |text| == width
    ensures forall i :: 0 <= i < width ==> '0' <= text[i] <= '9' || 'a' <= text[i] <= 'f'
  {
    if width == 0 then [] else Digits(n / 16, width - 1) + [HexDigit(n % 16)]
  }

  function Zeros(n: nat): (text: string)
    ensures |text| == n
  {
    seq(n, i => '0')
  }

  lemma {:induction false} Padded(text: string, width: nat)
    requires |text| <= width
    ensures PadStart(text, width) == Zeros(width - |text|) + text
    decreases width - |text|
  {
    if |text| < width {
      Padded(['0'] + text, width);
      assert Zeros(width - |text| - 1) + (['0'] + text) == Zeros(width - |text|) + text;
    } else {
      assert Zeros(0) + text == text;
    }
  }

  function Pow16(width: nat): nat {
    if width == 0 then 1 else 16 * Pow16(width - 1)
  }

  lemma {:induction false} HexFits(n: nat, width: nat)
    requires n < Pow16(width) && width > 0
    ensures |Hex(n)| <= width && Zeros(width - |Hex(n)|) + Hex(n) == Digits(n, width)
  {
    if n < 16 {
      SmallDigits(n, width);
    } else {
      HexFits(n / 16, width - 1);
      var zeros := Zeros(width - |Hex(n)|);
      assert zeros + Hex(n) == (zeros + Hex(n / 16)) + [HexDigit(n % 16)];
    }
  }

  lemma SmallDigits(n: nat, width: nat)
    requires n < 16 && width > 0
    ensures Digits(n, width) == Zeros(width - 1) + [HexDigit(n)]
  {
    ZeroDigits(width - 1);
  }

  lemma {:induction false} ZeroDigits(width: nat)
    ensures Digits(0, width) == Zeros(width)
  {
    if width != 0 {
      ZeroDigits(width - 1);
      assert Zeros(width) == Zeros(width - 1) + ['0'];
    }
  }

  lemma {:induction false} DigitsTell(a: nat, b: nat, width: nat)
    requires a < Pow16(width) && b < Pow16(width) && Digits(a, width) == Digits(b, width)
    ensures a == b
  {
    if width != 0 {
      var x, y := Digits(a, width), Digits(b, width);
      assert x[width - 1] == y[width - 1];
      assert x[..width - 1] == Digits(a / 16, width - 1) && y[..width - 1] == Digits(b / 16, width - 1);
      DigitsTell(a / 16, b / 16, width - 1);
    }
  }

  /** Four bits of a number: shifted right by that many places of four, the lowest ones. */
  function Nibble(n: nat, place: nat): (value: nat)
    ensures value < 16
  {
    if place == 0 then n % 16 else Nibble(n / 16, place - 1)
  }

  /** Each character is the hexadecimal digit of its place, the highest first. */
  lemma {:induction false} DigitsRead(n: nat, width: nat, i: nat)
    requires i < width
    ensures Digits(n, width)[i] == "0123456789abcdef"[Nibble(n, width - 1 - i)]
    decreases width
  {
    if i < width - 1 {
      DigitsRead(n / 16, width - 1, i);
    }
  }

  // ---------------------------------------------------------------- the loop, in signed arithmetic

  /** The 32-bit integer the language keeps for these bits. */
  function ToInt32(bits: word): int { if bits < 0x8000_0000 then bits else bits - TWO32 }

  /** `>>> 0` */
  function ToUint32(n: int): word { n % TWO32 }

  function XorSigned(a: int, b: int): int { ToInt32(Xor32(ToUint32(a), ToUint32(b))) }

  /** `Math.imul` */
  function Imul(a: int, b: int): int { ToInt32(ToUint32(a * b)) }

  lemma SameBits(bits: word)
    ensures ToUint32(ToInt32(bits)) == bits && -2147483648 <= ToInt32(bits) <= 2147483647
  {
  }

  /** Multiplying the signed integers multiplies the bits they stand for, and stays within 32 bits. */
  lemma ImulAgrees(a: int, b: word)
    ensures ToUint32(Imul(a, b)) == Times(ToUint32(a), b) && -2147483648 <= Imul(a, b) <= 2147483647
  {
    SameBits(ToUint32(a * b));
    ProductBits(a, a / TWO32, ToUint32(a), b);
  }

  /** Whole words drop out of a product. */
  lemma ProductBits(a: int, q: int, r: word, b: word)
    requires a == q * TWO32 + r
    ensures (a * b) % TWO32 == (r * b) % TWO32
  {
    var k, rest := r * b / TWO32, (r * b) % TWO32;
    assert a * b == (q * b) * TWO32 + r * b;
    assert r * b == k * TWO32 + rest;
    assert a * b == (q * b + k) * TWO32 + rest;
    Remainder(a * b, q * b + k, rest);
  }

  /** One signed step is one unsigned step on the bits. */
  lemma SignedMix(hash: int, unit: unit16)
    ensures ToUint32(Imul(XorSigned(hash, unit), PRIME)) == Mix(ToUint32(hash), unit)
  {
    var mixed := Xor32(ToUint32(hash), unit);
    assert ToUint32(unit) == unit;
    SameBits(mixed);
    ImulAgrees(ToInt32(mixed), PRIME);
  }

  lemma Printed(bits: word)
    ensures PadStart(Hex(bits), 8) == Digits(bits, 8)
  {
    assert Pow16(8) == TWO32;
    HexFits(bits, 8);
    Padded(Hex(bits), 8);
  }

  lemma HashNext(text: seq<unit16>, n: nat)
    requires n < |text|
    ensures Hash(text[..n + 1]) == Mix(Hash(text[..n]), text[n])
  {
    assert text[..n + 1][..n] == text[..n];
  }

  /** The surface hash as text. */
  function HashText(text: seq<unit16>): string { Digits(Hash(text), 8) }

  /** `fnv1a32`: the signed loop computes the unsigned hash, and prints it in exactly eight digits. */
  method Fnv1a32(value: seq<unit16>) returns (text: string)
    ensures text == HashText(value)
  {
    var hash: int := OFFSET;
    var index := 0;
    while index < |value|
      invariant index <= |value| && ToUint32(hash) == Hash(value[..index])
    {
      SignedMix(hash, value[index]);
      HashNext(value, index);
      hash := Imul(XorSigned(hash, value[index]), PRIME);
      index := index + 1;
    }
    assert value[..index] == value;
    Printed(ToUint32(hash));
    text := PadStart(Hex(ToUint32(hash)), 8);
  }

  /** So a change of any one unit of the registries changes the text of the surface hash. */
  lemma SurfaceChanges(before: seq<unit16>, a: unit16, b: unit16, after: seq<unit16>)
    requires a != b
    ensures HashText(before + [a] + after) != HashText(before + [b] + after)
  {
    OneChangeTells(before, a, b, after);
    assert Pow16(8) == TWO32;
    if HashText(before + [a] + after) == HashText(before + [b] + after) {
      DigitsTell(Hash(before + [a] + after), Hash(before + [b] + after), 8);
    }
  }
}
