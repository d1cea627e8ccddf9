/**
 * Packed binary-coded decimal: the two nibbles of a register byte hold the
 * tens and the units digit of a number 0..99.
 */
module Bcd {
  import opened Bits

  /** A byte whose two nibbles are both decimal digits. */
  predicate IsBcd(b: nat)
  {
    b / 16 <= 9 && b % 16 <= 9
  }

  /** `(dat >> 4) * 10 + (dat % 16)`: decode a packed BCD byte. */
  function HexToDec(dat: nat): nat
  {
    Shr(dat, 4) * 10 + dat % 16
  }

  /** `Math.idiv(dat, 10) * 16 + (dat % 10)`: encode 0..99 as packed BCD. */
  function DecToHex(dat: nat): nat
  {
    (dat / 10) * 16 + dat % 10
  }

  lemma ShrFour(v: nat)
    ensures Shr(v, 4) == v / 16
  {
    var h1 := v / 2;
    var h2 := h1 / 2;
    var h3 := h2 / 2;
    assert Shr(v, 4) == Shr(h1, 3) == Shr(h2, 2) == Shr(h3, 1) == h3 / 2;
  }

  /** The nibbles of the byte decoded: tens digit and units digit. */
  lemma HexToDecDigits(b: nat)
    ensures HexToDec(b) == (b / 16) * 10 + b % 16
  {
    ShrFour(b);
  }

  /** Encoding a number 0..99 gives a BCD byte, at most 0x99, that decodes back. */
  lemma DecToHexRoundTrip(d: nat)
    requires d <= 99
    ensures IsBcd(DecToHex(d)) && DecToHex(d) <= 0x99
    ensures HexToDec(DecToHex(d)) == d
  {
    var b := DecToHex(d);
    DivModUnique(b, 16, d / 10, d % 10);
    HexToDecDigits(b);
  }

  /** Decoding a BCD byte gives 0..99, and encoding that gives the byte back. */
  lemma HexToDecRoundTrip(b: nat)
    requires IsBcd(b)
    ensures HexToDec(b) <= 99
    ensures DecToHex(HexToDec(b)) == b
  {
    HexToDecDigits(b);
    var d := HexToDec(b);
    DivModUnique(d, 10, b / 16, b % 16);
  }

  /** The BCD bytes are exactly the encodings of 0..99. */
  lemma BcdImage(b: nat)
    ensures IsBcd(b) <==> exists d: nat :: d <= 99 && DecToHex(d) == b
  {
    if IsBcd(b) {
      HexToDecRoundTrip(b);
    }
    if d: nat :| d <= 99 && DecToHex(d) == b {
      DecToHexRoundTrip(d);
    }
  }
}
