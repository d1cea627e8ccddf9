/**
 * The DS1302 driver object: three pin identifiers and the operations that
 * bit-bang the chip's three-wire interface through the pin bus. Every
 * method states exactly which pin events it appends to the bus trace.
 */
module DS1302 {
  import opened Bits
  import opened Bcd
  import opened Registers
  import opened Pins
  import opened Protocol

  class ClockDS1302 {
    const clk: Pin
    const dio: Pin
    const cs: Pin
    /** The pin collaborator every access goes through. */
    const bus: Bus

    function Wires(): Wiring
    {
      Wiring(clk, dio, cs)
    }

    constructor (clk: Pin, dio: Pin, cs: Pin, bus: Bus)
      ensures this.clk == clk && this.dio == dio && this.cs == cs && this.bus == bus
    {
      this.clk := clk;
      this.dio := dio;
      this.cs := cs;
      this.bus := bus;
    }

    // -------------------------------------------------------------------
    // Byte transport

    /** Shift dat out on the data line, least significant bit first, one clock pulse per bit. */
    method WriteByte(dat: nat)
      modifies bus
      ensures bus.trace == old(bus.trace) + WriteFrames(Wires(), ByteBits(dat))
      ensures bus.sampled == old(bus.sampled)
    {
      ghost var bits := ByteBits(dat);
      for i := 0 to 8
        invariant bus.trace == old(bus.trace) + WriteFrames(Wires(), bits[..i])
        invariant bus.sampled == old(bus.sampled)
      {
        ghost var before := bus.trace;
        AndOne(Shr(dat, i));
        LowBitsAt(dat, 8, i);
        var level: Bit := And(Shr(dat, i), 1);
        bus.DigitalWritePin(dio, level);
        bus.DigitalWritePin(clk, 1);
        bus.DigitalWritePin(clk, 0);
        WriteFrameStep(Wires(), bits, i, old(bus.trace), before, bus.trace);
      }
      assert bits[..8] == bits;
    }

    /** Sample eight bits from the data line, least significant first, one clock pulse per bit. */
    method ReadByte() returns (r: nat)
      modifies bus
      ensures r == Assemble(old(bus.Upcoming(8))) && r < 256
      ensures bus.trace == old(bus.trace) + ReadFrames(Wires(), old(bus.Upcoming(8)))
      ensures bus.sampled == old(bus.sampled) + 8
    {
      ghost var samples := bus.Upcoming(8);
      r := 0;
      for i := 0 to 8
        invariant bus.sampled == old(bus.sampled) + i
        invariant r == Assemble(samples[..i]) && r < Pow2(i)
        invariant bus.trace == old(bus.trace) + ReadFrames(Wires(), samples[..i])
      {
        ghost var before := bus.trace;
        var level := bus.DigitalReadPin(dio);
        assert level == samples[i];
        AccumulateStep(samples, i, r);
        r := Or(r, Shl(level, i));
        bus.DigitalWritePin(clk, 1);
        bus.DigitalWritePin(clk, 0);
        ReadFrameStep(Wires(), samples, i, old(bus.trace), before, bus.trace);
      }
      assert samples[..8] == samples;
      assert Pow2(8) == 256;
    }

    // -------------------------------------------------------------------
    // Register transport

    /** One read exchange: chip select high, address out, byte in, chip select low. */
    method GetReg(reg: nat) returns (t: nat)
      modifies bus
      ensures t == Assemble(old(bus.Upcoming(8))) && t < 256
      ensures bus.trace == old(bus.trace) + Wire(Wires(), ReadReg(reg, old(bus.Upcoming(8))))
      ensures bus.sampled == old(bus.sampled) + 8
    {
      bus.DigitalWritePin(cs, 1);
      WriteByte(reg);
      t := ReadByte();
      bus.DigitalWritePin(cs, 0);
    }

    /** One write exchange: chip select high, address out, value out, chip select low. */
    method SetReg(reg: nat, dat: nat)
      modifies bus
      ensures bus.trace == old(bus.trace) + Wire(Wires(), WriteReg(reg, dat))
      ensures bus.sampled == old(bus.sampled)
    {
      bus.DigitalWritePin(cs, 1);
      WriteByte(reg);
      WriteByte(dat);
      bus.DigitalWritePin(cs, 0);
    }

    /** A register write between two writes of 0 to the write-protect register. */
    method Wr(reg: nat, dat: nat)
      modifies bus
      ensures bus.trace == old(bus.trace) + Flatten(Wires(), Protected(reg, dat))
      ensures bus.sampled == old(bus.sampled)
    {
      ghost var t0 := bus.trace;
      SetReg(RegWp, 0);
      ghost var t1 := bus.trace;
      SetReg(reg, dat);
      ghost var t2 := bus.trace;
      SetReg(RegWp, 0);
      ThreeTrace(Wires(), Protected(reg, dat), t0, t1, t2, bus.trace);
    }

    // -------------------------------------------------------------------
    // Field setters

    method SetYear(dat: nat)
      modifies bus
      ensures bus.trace == old(bus.trace) + Flatten(Wires(), SetField(Assign(Year, dat)))
      ensures bus.sampled == old(bus.sampled)
    {
      SetFieldIs(Wires(), Year, dat, RegYear, DecToHex(dat % 100));
      Wr(RegYear, DecToHex(dat % 100));
    }

    method SetMonth(dat: nat)
      modifies bus
      ensures bus.trace == old(bus.trace) + Flatten(Wires(), SetField(Assign(Month, dat)))
      ensures bus.sampled == old(bus.sampled)
    {
      SetFieldIs(Wires(), Month, dat, RegMonth, DecToHex(dat % 13));
      Wr(RegMonth, DecToHex(dat % 13));
    }

    method SetDay(dat: nat)
      modifies bus
      ensures bus.trace == old(bus.trace) + Flatten(Wires(), SetField(Assign(Day, dat)))
      ensures bus.sampled == old(bus.sampled)
    {
      SetFieldIs(Wires(), Day, dat, RegDay, DecToHex(dat % 32));
      Wr(RegDay, DecToHex(dat % 32));
    }

    method SetHour(dat: nat)
      modifies bus
      ensures bus.trace == old(bus.trace) + Flatten(Wires(), SetField(Assign(Hour, dat)))
      ensures bus.sampled == old(bus.sampled)
    {
      SetFieldIs(Wires(), Hour, dat, RegHour, DecToHex(dat % 24));
      Wr(RegHour, DecToHex(dat % 24));
    }

    method SetMinute(dat: nat)
      modifies bus
      ensures bus.trace == old(bus.trace) + Flatten(Wires(), SetField(Assign(Minute, dat)))
      ensures bus.sampled == old(bus.sampled)
    {
      SetFieldIs(Wires(), Minute, dat, RegMinute, DecToHex(dat % 60));
      Wr(RegMinute, DecToHex(dat % 60));
    }

    method SetSecond(dat: nat)
      modifies bus
      ensures bus.trace == old(bus.trace) + Flatten(Wires(), SetField(Assign(Second, dat)))
      ensures bus.sampled == old(bus.sampled)
    {
      SetFieldIs(Wires(), Second, dat, RegSecond, DecToHex(dat % 60));
      Wr(RegSecond, DecToHex(dat % 60));
    }

    method SetWeekday(dat: nat)
      modifies bus
      ensures bus.trace == old(bus.trace) + Flatten(Wires(), SetField(Assign(Weekday, dat)))
      ensures bus.sampled == old(bus.sampled)
    {
      SetFieldIs(Wires(), Weekday, dat, RegWeekday, DecToHex(dat % 8));
      Wr(RegWeekday, DecToHex(dat % 8));
    }

    // -------------------------------------------------------------------
    // Field getters

    method GetYear() returns (r: nat)
      modifies bus
      ensures r == Decode(Year, Assemble(old(bus.Upcoming(8))))
      ensures bus.trace == old(bus.trace) + Wire(Wires(), ReadReg(ReadAddress(Year), old(bus.Upcoming(8))))
      ensures bus.sampled == old(bus.sampled) + 8
    {
      var raw := GetReg(RegYear + 1);
      r := HexToDec(raw) + 2000;
    }

    method GetMonth() returns (r: nat)
      modifies bus
      ensures r == Decode(Month, Assemble(old(bus.Upcoming(8))))
      ensures bus.trace == old(bus.trace) + Wire(Wires(), ReadReg(ReadAddress(Month), old(bus.Upcoming(8))))
      ensures bus.sampled == old(bus.sampled) + 8
    {
      var raw := GetReg(RegMonth + 1);
      r := HexToDec(raw);
    }

    method GetDay() returns (r: nat)
      modifies bus
      ensures r == Decode(Day, Assemble(old(bus.Upcoming(8))))
      ensures bus.trace == old(bus.trace) + Wire(Wires(), ReadReg(ReadAddress(Day), old(bus.Upcoming(8))))
      ensures bus.sampled == old(bus.sampled) + 8
    {
      var raw := GetReg(RegDay + 1);
      r := HexToDec(raw);
    }

    method GetHour() returns (r: nat)
      modifies bus
      ensures r == Decode(Hour, Assemble(old(bus.Upcoming(8)))) && r < 24
      ensures bus.trace == old(bus.trace) + Wire(Wires(), ReadReg(ReadAddress(Hour), old(bus.Upcoming(8))))
      ensures bus.sampled == old(bus.sampled) + 8
    {
      var raw := GetReg(RegHour + 1);
      r := HexToDec(raw) % 24;
    }

    method GetMinute() returns (r: nat)
      modifies bus
      ensures r == Decode(Minute, Assemble(old(bus.Upcoming(8)))) && r < 60
      ensures bus.trace == old(bus.trace) + Wire(Wires(), ReadReg(ReadAddress(Minute), old(bus.Upcoming(8))))
      ensures bus.sampled == old(bus.sampled) + 8
    {
      var raw := GetReg(RegMinute + 1);
      r := HexToDec(raw) % 60;
    }

    method GetSecond() returns (r: nat)
      modifies bus
      ensures r == Decode(Second, Assemble(old(bus.Upcoming(8)))) && r < 60
      ensures bus.trace == old(bus.trace) + Wire(Wires(), ReadReg(ReadAddress(Second), old(bus.Upcoming(8))))
      ensures bus.sampled == old(bus.sampled) + 8
    {
      var raw := GetReg(RegSecond + 1);
      r := HexToDec(raw) % 60;
    }

    method GetWeekday() returns (r: nat)
      modifies bus
      ensures r == Decode(Weekday, Assemble(old(bus.Upcoming(8))))
      ensures bus.trace == old(bus.trace) + Wire(Wires(), ReadReg(ReadAddress(Weekday), old(bus.Upcoming(8))))
      ensures bus.sampled == old(bus.sampled) + 8
    {
      var raw := GetReg(RegWeekday + 1);
      r := HexToDec(raw);
    }

    // -------------------------------------------------------------------
    // start and pause

    /**
     * As written: read the decoded second, mask it with 0x7f and hand it to
     * SetSecond. See StartAsWritten for what this writes.
     */
    method Start()
      modifies bus
      ensures bus.trace == old(bus.trace) + Flatten(Wires(),
        [ReadReg(ReadAddress(Second), old(bus.Upcoming(8)))]
        + SetField(Assign(Second, StartArgument(Assemble(old(bus.Upcoming(8)))))))
      ensures bus.sampled == old(bus.sampled) + 8
    {
      ghost var samples := bus.Upcoming(8);
      ghost var before := bus.trace;
      var t := GetSecond();
      ghost var mid := bus.trace;
      ghost var arg := StartArgument(Assemble(samples));
      assert And(t, 0x7F) == arg;
      SetSecond(And(t, 0x7F));
      ReadThenWritesTrace(Wires(), before, mid, bus.trace, ReadReg(ReadAddress(Second), samples), SetField(Assign(Second, arg)));
    }

    /**
     * As written: read the decoded second, or it with 0x80 and hand it to
     * SetSecond, which reduces it modulo 60 again. See PauseAsWritten.
     */
    method Pause()
      modifies bus
      ensures bus.trace == old(bus.trace) + Flatten(Wires(),
        [ReadReg(ReadAddress(Second), old(bus.Upcoming(8)))]
        + SetField(Assign(Second, PauseArgument(Assemble(old(bus.Upcoming(8)))))))
      ensures bus.sampled == old(bus.sampled) + 8
    {
      ghost var samples := bus.Upcoming(8);
      ghost var before := bus.trace;
      var t := GetSecond();
      ghost var mid := bus.trace;
      ghost var arg := PauseArgument(Assemble(samples));
      assert Or(t, 0x80) == arg;
      SetSecond(Or(t, 0x80));
      ReadThenWritesTrace(Wires(), before, mid, bus.trace, ReadReg(ReadAddress(Second), samples), SetField(Assign(Second, arg)));
    }

    /** Resume the oscillator: write the raw seconds byte back with bit 7 cleared. */
    method StartRunning()
      modifies bus
      ensures bus.trace == old(bus.trace) + Flatten(Wires(),
        [ReadReg(ReadAddress(Second), old(bus.Upcoming(8)))]
        + Protected(RegSecond, RunningSeconds(Assemble(old(bus.Upcoming(8))))))
      ensures bus.sampled == old(bus.sampled) + 8
    {
      ghost var samples := bus.Upcoming(8);
      ghost var before := bus.trace;
      var t := GetReg(RegSecond + 1);
      assert RegSecond + 1 == ReadAddress(Second);
      ghost var mid := bus.trace;
      ghost var arg := RunningSeconds(Assemble(samples));
      assert And(t, 0x7F) == arg;
      Wr(RegSecond, And(t, 0x7F));
      ReadThenWritesTrace(Wires(), before, mid, bus.trace, ReadReg(ReadAddress(Second), samples), Protected(RegSecond, arg));
    }

    /** Halt the oscillator: write the raw seconds byte back with bit 7 set. */
    method PauseHalting()
      modifies bus
      ensures bus.trace == old(bus.trace) + Flatten(Wires(),
        [ReadReg(ReadAddress(Second), old(bus.Upcoming(8)))]
        + Protected(RegSecond, HaltedSeconds(Assemble(old(bus.Upcoming(8))))))
      ensures bus.sampled == old(bus.sampled) + 8
    {
      ghost var samples := bus.Upcoming(8);
      ghost var before := bus.trace;
      var t := GetReg(RegSecond + 1);
      assert RegSecond + 1 == ReadAddress(Second);
      ghost var mid := bus.trace;
      ghost var arg := HaltedSeconds(Assemble(samples));
      assert Or(t, 0x80) == arg;
      Wr(RegSecond, Or(t, 0x80));
      ReadThenWritesTrace(Wires(), before, mid, bus.trace, ReadReg(ReadAddress(Second), samples), Protected(RegSecond, arg));
    }

    // -------------------------------------------------------------------
    // RAM and the bulk setter

    method ReadRam(reg: nat) returns (r: nat)
      modifies bus
      ensures r == Assemble(old(bus.Upcoming(8))) && r < 256
      ensures bus.trace == old(bus.trace) + Wire(Wires(), ReadReg(RamReadAddress(reg), old(bus.Upcoming(8))))
      ensures bus.sampled == old(bus.sampled) + 8
    {
      r := GetReg(RegRam + 1 + (reg % 31) * 2);
    }

    method WriteRam(reg: nat, dat: nat)
      modifies bus
      ensures bus.trace == old(bus.trace) + Flatten(Wires(), Protected(RamWriteAddress(reg), dat))
      ensures bus.sampled == old(bus.sampled)
    {
      assert RegRam + (reg % 31) * 2 == RamWriteAddress(reg);
      Wr(RegRam + (reg % 31) * 2, dat);
    }

    /** The seven setters in the order year, month, day, weekday, hour, minute, second. */
    method DateTime(year: nat, month: nat, day: nat, weekday: nat, hour: nat, minute: nat, second: nat)
      modifies bus
      ensures bus.trace == old(bus.trace)
        + Flatten(Wires(), SetFields(DateTimeAssignments(year, month, day, weekday, hour, minute, second)))
      ensures bus.sampled == old(bus.sampled)
    {
      ghost var t0 := bus.trace;
      SetYear(year);
      ghost var t1 := bus.trace;
      SetMonth(month);
      ghost var t2 := bus.trace;
      SetDay(day);
      ghost var t3 := bus.trace;
      SetWeekday(weekday);
      ghost var t4 := bus.trace;
      SetHour(hour);
      ghost var t5 := bus.trace;
      SetMinute(minute);
      ghost var t6 := bus.trace;
      SetSecond(second);
      ghost var t7 := bus.trace;
      SevenTrace(Wires(), Assign(Year, year), Assign(Month, month), Assign(Day, day), Assign(Weekday, weekday),
        Assign(Hour, hour), Assign(Minute, minute), Assign(Second, second), t0, t1, t2, t3, t4, t5, t6, t7);
    }
  }

  /** Bind a driver to its three pins and drive clock and chip select low. */
  method Create(clk: Pin, dio: Pin, cs: Pin, bus: Bus) returns (ds: ClockDS1302)
    modifies bus
    ensures fresh(ds)
    ensures ds.clk == clk && ds.dio == dio && ds.cs == cs && ds.bus == bus
    ensures bus.trace == old(bus.trace) + [Write(clk, 0), Write(cs, 0)]
    ensures bus.sampled == old(bus.sampled)
  {
    ds := new ClockDS1302(clk, dio, cs, bus);
    bus.DigitalWritePin(ds.clk, 0);
    bus.DigitalWritePin(ds.cs, 0);
  }

  /**
   * Loopback of one byte: the data-line levels one driver writes for v are
   * fed to a second driver's reads, and the byte it reads back is v mod 256.
   */
  method LoopbackByte(v: nat) returns (r: nat)
    ensures r == v % 256
  {
    var out := new Bus((k: nat) => 0 as Bit);
    var writer := Create(0, 1, 2, out);
    writer.WriteByte(v);
    var sent := Levels(1, out.trace);
    SentLevels(v, out.trace);
    var echo := new Bus((k: nat) => if k < |sent| then sent[k] else 0 as Bit);
    var reader := Create(0, 1, 2, echo);
    assert echo.Upcoming(8) == sent;
    r := reader.ReadByte();
    Loopback(v);
  }

  /** The data-line levels of a Create followed by WriteByte(v) are v's eight bits. */
  lemma SentLevels(v: nat, trace: seq<PinEvent>)
    requires trace == [Write(0, 0), Write(2, 0)] + WriteFrames(Wiring(0, 1, 2), ByteBits(v))
    ensures Levels(1, trace) == ByteBits(v)
  {
    var w := Wiring(0, 1, 2);
    OneLine(1, Write(0, 0));
    OneLine(1, Write(2, 0));
    LevelsAppend(1, [Write(0, 0)], [Write(2, 0)]);
    assert [Write(0, 0)] + [Write(2, 0)] == [Write(0, 0), Write(2, 0)];
    LevelsAppend(1, [Write(0, 0), Write(2, 0)], WriteFrames(w, ByteBits(v)));
    WriteFramesLines(w, ByteBits(v), 1);
  }
}
