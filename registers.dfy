/**
 * The DS1302 register map and the value arithmetic of the field API: which
 * address each calendar field lives at, how a setter reduces and encodes
 * its argument, how a getter decodes the register byte, where the RAM
 * slots are, and what `start` and `pause` write back to the seconds
 * register.
 */
module Registers {
  import opened Bits
  import opened Bcd

  // Write addresses; the read address of each register is one above.
  const RegSecond: nat := 0x80
  const RegMinute: nat := 0x82
  const RegHour: nat := 0x84
  const RegDay: nat := 0x86
  const RegMonth: nat := 0x88
  const RegWeekday: nat := 0x8A
  const RegYear: nat := 0x8C
  const RegWp: nat := 0x8E
  const RegCtrl: nat := 0x90
  const RegRam: nat := 0xC0

  /** The number of RAM slots; slot indexes are reduced modulo this. */
  const RamSlots: nat := 31

  /** The seven calendar fields that have a setter and a getter. */
  datatype Field = Year | Month | Day | Weekday | Hour | Minute | Second

  function WriteAddress(f: Field): (a: nat)
    ensures RegSecond <= a <= RegYear && a % 2 == 0
  {
    match f
    case Year => RegYear
    case Month => RegMonth
    case Day => RegDay
    case Weekday => RegWeekday
    case Hour => RegHour
    case Minute => RegMinute
    case Second => RegSecond
  }

  /** Getters read at the write address plus one. */
  function ReadAddress(f: Field): nat
  {
    WriteAddress(f) + 1
  }

  /** The modulus a setter reduces its argument by. */
  function Modulus(f: Field): (m: nat)
    ensures 8 <= m <= 100
  {
    match f
    case Year => 100
    case Month => 13
    case Day => 32
    case Weekday => 8
    case Hour => 24
    case Minute => 60
    case Second => 60
  }

  /**
   * The byte a setter writes for argument dat: `DecToHex(dat % k)`.
   * It is always a BCD byte and decodes to the reduced argument.
   */
  function Encode(f: Field, dat: nat): (b: nat)
    ensures IsBcd(b) && b <= 0x99
    ensures HexToDec(b) == dat % Modulus(f)
  {
    DecToHexRoundTrip(dat % Modulus(f));
    DecToHex(dat % Modulus(f))
  }

  /** The value a getter returns for the register byte raw. */
  function Decode(f: Field, raw: nat): (r: nat)
    ensures f == Year ==> r >= 2000
    ensures f == Hour ==> r < 24
    ensures f == Minute || f == Second ==> r < 60
  {
    match f
    case Year => HexToDec(raw) + 2000
    case Hour => HexToDec(raw) % 24
    case Minute | Second => HexToDec(raw) % 60
    case _ => HexToDec(raw)
  }

  /** RAM slot reg is written at `0xC0 + (reg % 31) * 2`. */
  function RamWriteAddress(reg: nat): (a: nat)
    ensures RegRam <= a <= RegRam + 2 * (RamSlots - 1) && a % 2 == 0
  {
    RegRam + (reg % RamSlots) * 2
  }

  /** RAM slot reg is read at `0xC0 + 1 + (reg % 31) * 2`. */
  function RamReadAddress(reg: nat): nat
  {
    RegRam + 1 + (reg % RamSlots) * 2
  }

  // ---------------------------------------------------------------------
  // Setters and getters

  /** The write addresses of the seven fields are distinct and none is the write-protect register. */
  lemma FieldAddressesDistinct(f: Field, g: Field)
    ensures WriteAddress(f) == WriteAddress(g) <==> f == g
    ensures WriteAddress(f) != RegWp && ReadAddress(f) != RegWp
  {
  }

  /**
   * Two arguments make a setter write the same byte exactly when they agree
   * modulo the field's range; so SetMonth(13) writes what SetMonth(0) does.
   */
  lemma {:induction false} EncodeWraps(f: Field, a: nat, b: nat)
    ensures Encode(f, a) == Encode(f, b) <==> a % Modulus(f) == b % Modulus(f)
  {
    var ea, eb := Encode(f, a), Encode(f, b);
    assert ea == eb ==> HexToDec(ea) == HexToDec(eb);
  }

  /**
   * A setter handed its field's modulus writes what it writes for 0:
   * SetMonth(13), SetDay(32), SetHour(24) and SetWeekday(8) act as the
   * same setter with 0.
   */
  lemma EncodeAtModulus(f: Field)
    ensures Encode(f, Modulus(f)) == Encode(f, 0)
  {
    EncodeWraps(f, Modulus(f), 0);
  }

  /** A getter decodes a setter's byte to the reduced argument (plus 2000 for the year). */
  lemma DecodeEncode(f: Field, dat: nat)
    ensures Decode(f, Encode(f, dat)) == dat % Modulus(f) + (if f == Year then 2000 else 0)
  {
    var h := HexToDec(Encode(f, dat));
    assert h == dat % Modulus(f);
    match f
    case Hour => ModSmall(h, 24);
    case Minute | Second => ModSmall(h, 60);
    case _ =>
  }

  /**
   * On a byte from the bus the decoded value is bounded even when the byte is
   * not BCD; on a BCD byte the getter's value is the two-digit number.
   */
  lemma DecodeBounds(f: Field, raw: nat)
    requires raw < 256
    ensures HexToDec(raw) <= 165
    ensures f != Year ==> Decode(f, raw) <= 165
    ensures f == Year ==> Decode(f, raw) <= 2165
    ensures IsBcd(raw) ==> HexToDec(raw) <= 99
  {
    HexToDecDigits(raw);
  }

  lemma GetYearExample()
    ensures Decode(Year, 0x23) == 2023
  {
    HexToDecDigits(0x23);
  }

  // ---------------------------------------------------------------------
  // RAM

  /**
   * Read and write addresses of a slot differ by one; slot indexes that agree
   * modulo 31 (31 and 0, say) name the same address and others do not; and
   * RAM never overlaps the clock, write-protect or control registers.
   */
  lemma RamAddressing(i: nat, j: nat)
    ensures RamReadAddress(i) == RamWriteAddress(i) + 1
    ensures RamWriteAddress(i) == RamWriteAddress(j) <==> i % RamSlots == j % RamSlots
    ensures RamReadAddress(i) == RamReadAddress(j) <==> i % RamSlots == j % RamSlots
    ensures RamWriteAddress(i) > RegCtrl + 1
    ensures RamWriteAddress(31) == RamWriteAddress(0) && RamWriteAddress(5) == 0xCA
  {
  }

  // ---------------------------------------------------------------------
  // start and pause

  /** The argument `start` hands to SetSecond: the decoded second `& 0x7f`. */
  function StartArgument(raw: nat): nat
  {
    And(Decode(Second, raw), 0x7F)
  }

  /** The argument `pause` hands to SetSecond: the decoded second `| 0x80`. */
  function PauseArgument(raw: nat): nat
  {
    Or(Decode(Second, raw), 0x80)
  }

  /**
   * As written, `start` writes back the decoded seconds re-encoded: the mask
   * has no effect because the decoded second is already below 60.
   */
  lemma StartAsWritten(raw: nat)
    ensures StartArgument(raw) == HexToDec(raw) % 60
    ensures Encode(Second, StartArgument(raw)) == DecToHex(HexToDec(raw) % 60)
  {
    var t := Decode(Second, raw);
    assert Pow2(7) == 128;
    AndLowMask(t, 7);
    ModSmall(t, 128);
    assert StartArgument(raw) == t;
    ModSmall(t, 60);
    assert Encode(Second, t) == DecToHex(t % 60);
  }

  /**
   * As written, `pause` writes the second eight ahead of the current one and
   * the byte it writes has bit 7 clear: it never sets the halt flag.
   */
  lemma PauseAsWritten(raw: nat)
    ensures HexToDec(Encode(Second, PauseArgument(raw))) == (Decode(Second, raw) + 8) % 60
    ensures Encode(Second, PauseArgument(raw)) < 0x60
    ensures BitOf(Encode(Second, PauseArgument(raw)), 7) == 0
  {
    var t := Decode(Second, raw);
    PauseAddsEight(t);
    var b := Encode(Second, t + 128);
    EncodedSecondClear(t + 128, b);
  }

  /** Or-ing 0x80 into a second below 60 adds 128, which is 8 modulo 60. */
  lemma PauseAddsEight(t: nat)
    requires t < 60
    ensures Or(t, 0x80) == t + 128
    ensures (t + 128) % 60 == (t + 8) % 60
  {
    assert Pow2(7) == 128;
    ShrSmall(t, 7);
    OrPow2(t, 7);
  }

  /** The byte SetSecond writes is below 0x60, so its bit 7 is clear. */
  lemma EncodedSecondClear(dat: nat, b: nat)
    requires b == Encode(Second, dat)
    ensures b < 0x60 && BitOf(b, 7) == 0
  {
    HexToDecDigits(b);
    assert b / 16 <= 5;
    assert Pow2(7) == 128;
    ShrSmall(b, 7);
  }

  /**
   * Pausing at second 0 (raw 0x00, say) writes 0x08: the clock keeps running
   * and jumps eight seconds ahead.
   */
  lemma PauseAtZero(raw: nat)
    requires Decode(Second, raw) == 0
    ensures Encode(Second, PauseArgument(raw)) == 0x08
  {
    PauseAsWritten(raw);
    var b := Encode(Second, PauseArgument(raw));
    HexToDecRoundTrip(b);
    PauseAtZeroValue(b, HexToDec(b), Decode(Second, raw));
  }

  lemma PauseAtZeroValue(b: nat, h: nat, t: nat)
    requires DecToHex(h) == b && h == (t + 8) % 60 && t == 0
    ensures b == 0x08
  {
  }

  /**
   * Starting a halted clock that stands at second 0 (raw 0x80) writes 0x20,
   * second 20, where the running flag with second 0, 0x00, was meant.
   */
  lemma StartWhenHalted(raw: nat)
    requires raw == 0x80
    ensures Encode(Second, StartArgument(raw)) == 0x20
    ensures RunningSeconds(raw) == 0x00
  {
    StartAsWritten(raw);
    HexToDecDigits(raw);
    StartWhenHaltedValue(Encode(Second, StartArgument(raw)), HexToDec(raw), raw);
    RunningSecondsRuns(raw);
    HaltedRawLowBits(RunningSeconds(raw), raw);
  }

  lemma StartWhenHaltedValue(x: nat, h: nat, raw: nat)
    requires x == DecToHex(h % 60) && h == (raw / 16) * 10 + raw % 16 && raw == 0x80
    ensures x == 0x20
  {
  }

  lemma HaltedRawLowBits(x: nat, raw: nat)
    requires x == raw % 128 && raw == 0x80
    ensures x == 0
  {
  }

  /** The byte a halting pause writes: the raw seconds byte `| 0x80`. */
  function HaltedSeconds(raw: nat): nat
  {
    Or(raw, 0x80)
  }

  /** The byte a resuming start writes: the raw seconds byte `& 0x7f`. */
  function RunningSeconds(raw: nat): nat
  {
    And(raw, 0x7F)
  }

  /** A halting pause sets bit 7 and keeps bits 0-6 of the raw byte. */
  lemma HaltedSecondsHalts(raw: nat)
    ensures BitOf(HaltedSeconds(raw), 7) == 1
    ensures HaltedSeconds(raw) % 128 == raw % 128
    ensures raw < 256 ==> HaltedSeconds(raw) < 256
  {
    var p := Pow2(7);
    assert p == 128;
    OrPow2(raw, 7);
    ByteHighBit(raw);
    if BitOf(raw, 7) == 0 {
      HaltedFromClear(raw, p);
    }
  }

  /** With bit 7 clear, or-ing in 0x80 adds 128, which sets bit 7. */
  lemma HaltedFromClear(raw: nat, p: nat)
    requires p == Pow2(7) && BitOf(raw, 7) == 0
    ensures BitOf(raw + p, 7) == 1
  {
    ShrAddPow2(raw, 7);
  }

  /** A byte of at least 0x80 has bit 7 set. */
  lemma ByteHighBit(raw: nat)
    ensures 128 <= raw < 256 ==> BitOf(raw, 7) == 1
  {
    if 128 <= raw < 256 {
      assert Pow2(7) == 128;
      ShrAddPow2(raw - 128, 7);
      ShrSmall(raw - 128, 7);
    }
  }

  /** A resuming start clears bit 7 and keeps bits 0-6 of the raw byte. */
  lemma RunningSecondsRuns(raw: nat)
    ensures BitOf(RunningSeconds(raw), 7) == 0
    ensures RunningSeconds(raw) == raw % 128
  {
    AndLowMask(raw, 7);
    ShrSmall(raw % 128, 7);
  }

  /** Start after pause restores bits 0-6 of the byte from before the pause. */
  lemma PauseThenStart(raw: nat)
    ensures RunningSeconds(HaltedSeconds(raw)) == raw % 128
    ensures BitOf(RunningSeconds(HaltedSeconds(raw)), 7) == 0
  {
    HaltedSecondsHalts(raw);
    RunningSecondsRuns(HaltedSeconds(raw));
  }
}
