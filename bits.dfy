/**
 * Bit-level arithmetic on non-negative integers, as the driver uses it.
 *
 * The driver works with JavaScript numbers and the operators `>>`, `<<`,
 * `&` and `|`. For the non-negative values below 2^31 that the driver
 * handles these agree with the functions here: `Shr` is repeated halving,
 * `Shl` is multiplication by a power of two, and `And`/`Or` combine the
 * binary digits one at a time.
 */
module Bits {

  /** A logic level on a pin, and a single binary digit. */
  type Bit = b: nat | b <= 1

  function Pow2(n: nat): (r: nat)
    ensures r >= 1
  {
    if n == 0 then 1 else 2 * Pow2(n - 1)
  }

  /** `v >> n` for a non-negative v. */
  function Shr(v: nat, n: nat): nat
  {
    if n == 0 then v else Shr(v / 2, n - 1)
  }

  /** `v << n` for a non-negative v that does not overflow. */
  function Shl(v: nat, n: nat): nat
  {
    v * Pow2(n)
  }

  /** Bitwise `a & b`. */
  function And(a: nat, b: nat): nat
    decreases a + b
  {
    if a == 0 || b == 0 then 0
    else 2 * And(a / 2, b / 2) + (if a % 2 == 1 && b % 2 == 1 then 1 else 0)
  }

  /** Bitwise `a | b`. */
  function Or(a: nat, b: nat): nat
    decreases a + b
  {
    if a == 0 && b == 0 then 0
    else 2 * Or(a / 2, b / 2) + (if a % 2 == 1 || b % 2 == 1 then 1 else 0)
  }

  /** Binary digit i of v, that is `(v >> i) & 1`. */
  function BitOf(v: nat, i: nat): Bit
  {
    Shr(v, i) % 2
  }

  /** The n lowest binary digits of v, least significant first. */
  function LowBits(v: nat, n: nat): (bits: seq<Bit>)
    ensures |bits| == n
  {
    if n == 0 then [] else [(v % 2) as Bit] + LowBits(v / 2, n - 1)
  }

  /** The number whose binary digit i is bits[i] (least significant first). */
  function Assemble(bits: seq<Bit>): nat
  {
    if bits == [] then 0 else bits[0] + 2 * Assemble(bits[1..])
  }

  // ---------------------------------------------------------------------
  // Facts about the bitwise operators

  lemma {:induction false} AndZero(a: nat)
    ensures And(a, 0) == 0 && And(0, a) == 0
  {
  }

  lemma {:induction false} OrZero(a: nat)
    ensures Or(a, 0) == a
    decreases a
  {
    if a != 0 {
      OrZero(a / 2);
    }
  }

  /** `x & 1` is the parity of x, so the level it yields is a single bit. */
  lemma AndOne(x: nat)
    ensures And(x, 1) == x % 2
  {
    AndZero(x / 2);
  }

  /** Masking with 2^n - 1 keeps the n low digits: `t & 0x7f == t % 128`. */
  lemma {:induction false} AndLowMask(t: nat, n: nat)
    ensures And(t, Pow2(n) - 1) == t % Pow2(n)
  {
    if n == 0 {
      AndZero(t);
    } else if t == 0 {
    } else {
      var m := Pow2(n - 1);
      AndMaskStep(t, Pow2(n), m);
      AndLowMask(t / 2, n - 1);
      ModDouble(t, m);
    }
  }

  /** One step of `t & (p - 1)` for p a doubled power: the low digit of t survives. */
  lemma AndMaskStep(t: nat, p: nat, m: nat)
    requires t > 0 && m >= 1 && p == 2 * m
    ensures And(t, p - 1) == 2 * And(t / 2, m - 1) + t % 2
  {
    assert (p - 1) / 2 == m - 1 && (p - 1) % 2 == 1;
  }

  /** Or-ing in 2^n sets digit n and leaves every other digit alone. */
  lemma {:induction false} OrPow2(t: nat, n: nat)
    ensures Or(t, Pow2(n)) == if BitOf(t, n) == 1 then t else t + Pow2(n)
  {
    if n == 0 {
      OrZero(t / 2);
    } else {
      OrPow2(t / 2, n - 1);
      assert BitOf(t, n) == BitOf(t / 2, n - 1);
    }
  }

  /**
   * `a | (b << i)` with a below 2^i touches no digit of a: it adds.
   * This is the accumulation step of reading a byte bit by bit.
   */
  lemma {:induction false} OrDisjoint(a: nat, b: Bit, i: nat)
    requires a < Pow2(i)
    ensures Or(a, Shl(b, i)) == a + b * Pow2(i)
  {
    if i == 0 {
      assert a == 0;
      if b == 1 {
        assert Or(0, 1) == 2 * Or(0, 0) + 1;
      }
    } else {
      var p := Pow2(i - 1);
      assert Shl(b, i) == 2 * (b * p);
      assert Shl(b, i) / 2 == b * p == Shl(b, i - 1);
      OrDisjoint(a / 2, b, i - 1);
      if b == 0 {
        OrZero(a);
      }
    }
  }

  /** A value below 2^n has no digit at position n or above. */
  lemma {:induction false} ShrSmall(v: nat, n: nat)
    requires v < Pow2(n)
    ensures Shr(v, n) == 0
  {
    if n > 0 {
      ShrSmall(v / 2, n - 1);
    }
  }

  /** Adding 2^n adds one to the digits from position n upwards. */
  lemma {:induction false} ShrAddPow2(v: nat, n: nat)
    ensures Shr(v + Pow2(n), n) == Shr(v, n) + 1
  {
    if n > 0 {
      assert (v + Pow2(n)) / 2 == v / 2 + Pow2(n - 1);
      ShrAddPow2(v / 2, n - 1);
    }
  }

  // ---------------------------------------------------------------------
  // Digits and numbers

  lemma {:induction false} LowBitsAt(v: nat, n: nat, i: nat)
    requires i < n
    ensures LowBits(v, n)[i] == BitOf(v, i)
  {
    if i > 0 {
      LowBitsAt(v / 2, n - 1, i - 1);
    }
  }

  /** v % (2p) in terms of the parity of v and the half of v. */
  lemma ModDouble(v: nat, p: nat)
    requires p >= 1
    ensures v % (2 * p) == v % 2 + 2 * ((v / 2) % p)
  {
    var h := v / 2;
    var q := h / p;
    var r := v % 2 + 2 * (h % p);
    assert h == q * p + h % p;
    assert v == 2 * h + v % 2;
    assert v == q * (2 * p) + r;
    assert 0 <= r < 2 * p;
    DivModUnique(v, 2 * p, q, r);
  }

  lemma DivModUnique(v: nat, d: nat, q: nat, r: nat)
    requires d >= 1 && r < d && v == q * d + r
    ensures v % d == r && v / d == q
  {
    var q0, r0 := v / d, v % d;
    assert v == q0 * d + r0;
    if q > q0 {
      assert q * d == (q - q0) * d + q0 * d;
      MulAtLeast(q - q0, d);
    } else if q < q0 {
      assert q0 * d == (q0 - q) * d + q * d;
      MulAtLeast(q0 - q, d);
    }
  }

  lemma ModSmall(x: nat, m: nat)
    requires x < m
    ensures x % m == x
  {
  }

  lemma MulAtLeast(k: nat, d: nat)
    requires k >= 1
    ensures k * d >= d
  {
    assert k * d == d + (k - 1) * d;
  }

  /** Sending the n low digits of v and assembling them gives v mod 2^n. */
  lemma {:induction false} AssembleLowBits(v: nat, n: nat)
    ensures Assemble(LowBits(v, n)) == v % Pow2(n)
  {
    if n > 0 {
      var bits := LowBits(v, n);
      assert bits[1..] == LowBits(v / 2, n - 1);
      AssembleLowBits(v / 2, n - 1);
      ModDouble(v, Pow2(n - 1));
    }
  }

  /** An assembled number has one digit per bit and those digits are the bits. */
  lemma {:induction false} LowBitsAssemble(bits: seq<Bit>)
    ensures Assemble(bits) < Pow2(|bits|)
    ensures LowBits(Assemble(bits), |bits|) == bits
  {
    if bits != [] {
      LowBitsAssemble(bits[1..]);
      var a := Assemble(bits);
      assert a % 2 == bits[0] && a / 2 == Assemble(bits[1..]);
      assert LowBits(a, |bits|) == [bits[0]] + LowBits(Assemble(bits[1..]), |bits| - 1);
    }
  }

  /** Digit k of an assembled number is bits[k]. */
  lemma AssembleBitAt(bits: seq<Bit>, k: nat)
    requires k < |bits|
    ensures BitOf(Assemble(bits), k) == bits[k]
  {
    LowBitsAssemble(bits);
    LowBitsAt(Assemble(bits), |bits|, k);
  }

  /** Appending a bit at the top adds it at weight 2^|bits|. */
  lemma {:induction false} AssembleSnoc(bits: seq<Bit>, b: Bit)
    ensures Assemble(bits + [b]) == Assemble(bits) + b * Pow2(|bits|)
  {
    if bits != [] {
      assert (bits + [b])[1..] == bits[1..] + [b];
      AssembleSnoc(bits[1..], b);
    }
  }

  /**
   * One step of reading a byte: or-ing sample i in at position i extends
   * the number assembled from the samples before it.
   */
  lemma AccumulateStep(samples: seq<Bit>, i: nat, r: nat)
    requires i < |samples| && r == Assemble(samples[..i]) && r < Pow2(i)
    ensures Or(r, Shl(samples[i], i)) == Assemble(samples[..i + 1])
    ensures Or(r, Shl(samples[i], i)) < Pow2(i + 1)
  {
    var b := samples[i];
    OrDisjoint(r, b, i);
    assert samples[..i + 1] == samples[..i] + [b];
    AssembleSnoc(samples[..i], b);
  }
}
