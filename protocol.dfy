/**
 * The three-wire protocol as sequences of pin events: what one byte, one
 * register exchange and one write-protected register write put on the
 * clock, data and chip-select lines. The driver's methods are specified
 * by these functions; the lemmas say what the sequences look like.
 */
module Protocol {
  import opened Bits
  import opened Bcd
  import opened Registers
  import opened Pins

  /** The three pins a driver instance is bound to. */
  datatype Wiring = Wiring(clk: Pin, dio: Pin, cs: Pin)

  predicate Distinct(w: Wiring)
  {
    w.clk != w.dio && w.clk != w.cs && w.dio != w.cs
  }

  /** One clock period per bit driven onto the data line: data, clock high, clock low. */
  function WriteFrames(w: Wiring, bits: seq<Bit>): seq<PinEvent>
  {
    if bits == [] then []
    else WriteFrames(w, bits[..|bits| - 1])
         + [Write(w.dio, bits[|bits| - 1]), Write(w.clk, 1), Write(w.clk, 0)]
  }

  /** One clock period per bit sampled from the data line: sample, clock high, clock low. */
  function ReadFrames(w: Wiring, samples: seq<Bit>): seq<PinEvent>
  {
    if samples == [] then []
    else ReadFrames(w, samples[..|samples| - 1])
         + [Read(w.dio, samples[|samples| - 1]), Write(w.clk, 1), Write(w.clk, 0)]
  }

  /** A trace that grew by the frame of bit i of bits. */
  lemma WriteFrameStep(w: Wiring, bits: seq<Bit>, i: nat, t0: seq<PinEvent>, before: seq<PinEvent>, after: seq<PinEvent>)
    requires i < |bits| && before == t0 + WriteFrames(w, bits[..i])
    requires after == before + [Write(w.dio, bits[i])] + [Write(w.clk, 1)] + [Write(w.clk, 0)]
    ensures after == t0 + WriteFrames(w, bits[..i + 1])
  {
    var pre := bits[..i + 1];
    assert pre[..|pre| - 1] == bits[..i] && pre[|pre| - 1] == bits[i];
    var frame := [Write(w.dio, bits[i]), Write(w.clk, 1), Write(w.clk, 0)];
    assert WriteFrames(w, pre) == WriteFrames(w, bits[..i]) + frame;
    assert [Write(w.dio, bits[i])] + [Write(w.clk, 1)] + [Write(w.clk, 0)] == frame;
  }

  /** A trace that grew by the frame of sample i of samples. */
  lemma ReadFrameStep(w: Wiring, samples: seq<Bit>, i: nat, t0: seq<PinEvent>, before: seq<PinEvent>, after: seq<PinEvent>)
    requires i < |samples| && before == t0 + ReadFrames(w, samples[..i])
    requires after == before + [Read(w.dio, samples[i])] + [Write(w.clk, 1)] + [Write(w.clk, 0)]
    ensures after == t0 + ReadFrames(w, samples[..i + 1])
  {
    var pre := samples[..i + 1];
    assert pre[..|pre| - 1] == samples[..i] && pre[|pre| - 1] == samples[i];
    var frame := [Read(w.dio, samples[i]), Write(w.clk, 1), Write(w.clk, 0)];
    assert ReadFrames(w, pre) == ReadFrames(w, samples[..i]) + frame;
    assert [Read(w.dio, samples[i])] + [Write(w.clk, 1)] + [Write(w.clk, 0)] == frame;
  }

  /** The eight bits of a byte on the wire, least significant first. */
  function ByteBits(v: nat): seq<Bit>
  {
    LowBits(v, 8)
  }

  /** One chip-select framed exchange with the chip. */
  datatype Exchange =
    | ReadReg(addr: nat, samples: seq<Bit>)  // address out, eight samples in
    | WriteReg(addr: nat, value: nat)        // address out, value out

  function Wire(w: Wiring, e: Exchange): seq<PinEvent>
  {
    match e
    case ReadReg(addr, samples) =>
      [Write(w.cs, 1)] + WriteFrames(w, ByteBits(addr)) + ReadFrames(w, samples) + [Write(w.cs, 0)]
    case WriteReg(addr, value) =>
      [Write(w.cs, 1)] + WriteFrames(w, ByteBits(addr)) + WriteFrames(w, ByteBits(value)) + [Write(w.cs, 0)]
  }

  function Flatten(w: Wiring, es: seq<Exchange>): seq<PinEvent>
  {
    if es == [] then [] else Wire(w, es[0]) + Flatten(w, es[1..])
  }

  /** A register write bracketed by two writes of 0 to the write-protect register. */
  function Protected(addr: nat, value: nat): seq<Exchange>
  {
    [WriteReg(RegWp, 0), WriteReg(addr, value), WriteReg(RegWp, 0)]
  }

  /** A call of one field setter with its argument. */
  datatype Assignment = Assign(field: Field, value: nat)

  /** What the setter of a.field puts on the bus for argument a.value. */
  function SetField(a: Assignment): seq<Exchange>
  {
    Protected(WriteAddress(a.field), Encode(a.field, a.value))
  }

  /** The setters called one after another. */
  function SetFields(asgs: seq<Assignment>): seq<Exchange>
  {
    if asgs == [] then [] else SetField(asgs[0]) + SetFields(asgs[1..])
  }

  /** The order in which the bulk date-time setter calls the field setters. */
  function DateTimeAssignments(year: nat, month: nat, day: nat, weekday: nat,
                               hour: nat, minute: nat, second: nat): seq<Assignment>
  {
    [Assign(Year, year), Assign(Month, month), Assign(Day, day), Assign(Weekday, weekday),
     Assign(Hour, hour), Assign(Minute, minute), Assign(Second, second)]
  }

  // ---------------------------------------------------------------------
  // Projections of a trace onto one line

  /** The levels written to pin p, in order. */
  function Levels(p: Pin, events: seq<PinEvent>): seq<Bit>
  {
    if events == [] then []
    else (if events[0].Write? && events[0].pin == p then [events[0].level] else [])
         + Levels(p, events[1..])
  }

  /** The levels sampled from pin p, in order. */
  function Samples(p: Pin, events: seq<PinEvent>): seq<Bit>
  {
    if events == [] then []
    else (if events[0].Read? && events[0].pin == p then [events[0].level] else [])
         + Samples(p, events[1..])
  }

  /** n chip-select frames: high then low, n times. */
  function Brackets(n: nat): seq<Bit>
  {
    if n == 0 then [] else [1 as Bit, 0 as Bit] + Brackets(n - 1)
  }

  // ---------------------------------------------------------------------
  // Byte transport

  /**
   * The frames of a bit sequence are three events per bit, in ascending bit
   * order: data := bit, clock := 1, clock := 0.
   */
  lemma {:induction false} WriteFramesAt(w: Wiring, bits: seq<Bit>, k: nat)
    requires k < |bits|
    ensures |WriteFrames(w, bits)| == 3 * |bits|
    ensures WriteFrames(w, bits)[3 * k] == Write(w.dio, bits[k])
    ensures WriteFrames(w, bits)[3 * k + 1] == Write(w.clk, 1)
    ensures WriteFrames(w, bits)[3 * k + 2] == Write(w.clk, 0)
  {
    var n := |bits|;
    if k < n - 1 {
      WriteFramesAt(w, bits[..n - 1], k);
    } else {
      WriteFramesLength(w, bits[..n - 1]);
    }
  }

  lemma {:induction false} WriteFramesLength(w: Wiring, bits: seq<Bit>)
    ensures |WriteFrames(w, bits)| == 3 * |bits|
  {
    if bits != [] {
      WriteFramesLength(w, bits[..|bits| - 1]);
    }
  }

  /** Writing byte v: for i = 0..7, data := (v >> i) & 1, clock := 1, clock := 0. */
  lemma WriteByteEventsAt(w: Wiring, v: nat, i: nat)
    requires i < 8
    ensures |WriteFrames(w, ByteBits(v))| == 24
    ensures WriteFrames(w, ByteBits(v))[3 * i] == Write(w.dio, BitOf(v, i))
    ensures WriteFrames(w, ByteBits(v))[3 * i + 1] == Write(w.clk, 1)
    ensures WriteFrames(w, ByteBits(v))[3 * i + 2] == Write(w.clk, 0)
  {
    WriteFramesAt(w, ByteBits(v), i);
    LowBitsAt(v, 8, i);
  }

  /** Reading a byte: for each sample, data is sampled, then clock := 1, clock := 0. */
  lemma {:induction false} ReadFramesAt(w: Wiring, samples: seq<Bit>, k: nat)
    requires k < |samples|
    ensures |ReadFrames(w, samples)| == 3 * |samples|
    ensures ReadFrames(w, samples)[3 * k] == Read(w.dio, samples[k])
    ensures ReadFrames(w, samples)[3 * k + 1] == Write(w.clk, 1)
    ensures ReadFrames(w, samples)[3 * k + 2] == Write(w.clk, 0)
  {
    var n := |samples|;
    if k < n - 1 {
      ReadFramesAt(w, samples[..n - 1], k);
    } else {
      ReadFramesLength(w, samples[..n - 1]);
    }
  }

  lemma {:induction false} ReadFramesLength(w: Wiring, samples: seq<Bit>)
    ensures |ReadFrames(w, samples)| == 3 * |samples|
  {
    if samples != [] {
      ReadFramesLength(w, samples[..|samples| - 1]);
    }
  }

  lemma {:induction false} LevelsAppend(p: Pin, a: seq<PinEvent>, b: seq<PinEvent>)
    ensures Levels(p, a + b) == Levels(p, a) + Levels(p, b)
  {
    if a != [] {
      assert (a + b)[0] == a[0] && (a + b)[1..] == a[1..] + b;
      LevelsAppend(p, a[1..], b);
    } else {
      assert a + b == b;
    }
  }

  lemma {:induction false} SamplesAppend(p: Pin, a: seq<PinEvent>, b: seq<PinEvent>)
    ensures Samples(p, a + b) == Samples(p, a) + Samples(p, b)
  {
    if a != [] {
      assert (a + b)[0] == a[0] && (a + b)[1..] == a[1..] + b;
      SamplesAppend(p, a[1..], b);
    } else {
      assert a + b == b;
    }
  }

  /** The single-event and two-event cases the frame lemmas unfold to. */
  lemma ShortLines(p: Pin, x: PinEvent, y: PinEvent, z: PinEvent)
    ensures Levels(p, [x, y, z]) == Levels(p, [x]) + Levels(p, [y]) + Levels(p, [z])
    ensures Samples(p, [x, y, z]) == Samples(p, [x]) + Samples(p, [y]) + Samples(p, [z])
  {
    assert [x] + [y] + [z] == [x, y, z];
    LevelsAppend(p, [x] + [y], [z]);
    LevelsAppend(p, [x], [y]);
    SamplesAppend(p, [x] + [y], [z]);
    SamplesAppend(p, [x], [y]);
  }

  /** The pin lines of one write frame. */
  lemma WriteFrameLines(w: Wiring, b: Bit, p: Pin)
    requires w.dio != w.clk
    ensures Levels(w.dio, [Write(w.dio, b), Write(w.clk, 1), Write(w.clk, 0)]) == [b]
    ensures Samples(p, [Write(w.dio, b), Write(w.clk, 1), Write(w.clk, 0)]) == []
    ensures p != w.dio && p != w.clk ==> Levels(p, [Write(w.dio, b), Write(w.clk, 1), Write(w.clk, 0)]) == []
  {
    ShortLines(w.dio, Write(w.dio, b), Write(w.clk, 1), Write(w.clk, 0));
    ShortLines(p, Write(w.dio, b), Write(w.clk, 1), Write(w.clk, 0));
  }

  /** The pin lines of one read frame. */
  lemma ReadFrameLines(w: Wiring, b: Bit, p: Pin)
    requires w.dio != w.clk
    ensures Samples(w.dio, [Read(w.dio, b), Write(w.clk, 1), Write(w.clk, 0)]) == [b]
    ensures p != w.clk ==> Levels(p, [Read(w.dio, b), Write(w.clk, 1), Write(w.clk, 0)]) == []
  {
    ShortLines(w.dio, Read(w.dio, b), Write(w.clk, 1), Write(w.clk, 0));
    ShortLines(p, Read(w.dio, b), Write(w.clk, 1), Write(w.clk, 0));
  }

  /**
   * On the data line, the frames of a bit sequence carry exactly those bits;
   * they sample nothing and never touch any other pin than clock and data.
   */
  lemma {:induction false} WriteFramesLines(w: Wiring, bits: seq<Bit>, p: Pin)
    requires w.dio != w.clk
    ensures Levels(w.dio, WriteFrames(w, bits)) == bits
    ensures Samples(p, WriteFrames(w, bits)) == []
    ensures p != w.dio && p != w.clk ==> Levels(p, WriteFrames(w, bits)) == []
  {
    if bits != [] {
      var n := |bits|;
      var pre := WriteFrames(w, bits[..n - 1]);
      var frame := [Write(w.dio, bits[n - 1]), Write(w.clk, 1), Write(w.clk, 0)];
      assert WriteFrames(w, bits) == pre + frame;
      WriteFramesLines(w, bits[..n - 1], p);
      WriteFrameLines(w, bits[n - 1], p);
      LevelsAppend(w.dio, pre, frame);
      LevelsAppend(p, pre, frame);
      SamplesAppend(p, pre, frame);
      assert bits == bits[..n - 1] + [bits[n - 1]];
    }
  }

  /** The frames of a read sample exactly the given levels and write only the clock. */
  lemma {:induction false} ReadFramesLines(w: Wiring, samples: seq<Bit>, p: Pin)
    requires w.dio != w.clk
    ensures Samples(w.dio, ReadFrames(w, samples)) == samples
    ensures p != w.clk ==> Levels(p, ReadFrames(w, samples)) == []
  {
    if samples != [] {
      var n := |samples|;
      var pre := ReadFrames(w, samples[..n - 1]);
      var frame := [Read(w.dio, samples[n - 1]), Write(w.clk, 1), Write(w.clk, 0)];
      assert ReadFrames(w, samples) == pre + frame;
      ReadFramesLines(w, samples[..n - 1], p);
      ReadFrameLines(w, samples[n - 1], p);
      LevelsAppend(p, pre, frame);
      SamplesAppend(w.dio, pre, frame);
      assert samples == samples[..n - 1] + [samples[n - 1]];
    }
  }

  /**
   * Loopback: the bits written for v, handed back as the samples of a read,
   * assemble to v (to its low byte when v does not fit in eight bits).
   */
  lemma Loopback(v: nat)
    ensures Assemble(ByteBits(v)) == v % 256
  {
    AssembleLowBits(v, 8);
  }

  /** A read byte is below 256 and its bit i is the i-th sample. */
  lemma ReadByteBits(samples: seq<Bit>, i: nat)
    requires |samples| == 8 && i < 8
    ensures Assemble(samples) < 256
    ensures BitOf(Assemble(samples), i) == samples[i]
  {
    LowBitsAssemble(samples);
    AssembleBitAt(samples, i);
  }

  // ---------------------------------------------------------------------
  // Register transport

  lemma {:induction false} FlattenAppend(w: Wiring, a: seq<Exchange>, b: seq<Exchange>)
    ensures Flatten(w, a + b) == Flatten(w, a) + Flatten(w, b)
  {
    if a != [] {
      var c := a + b;
      assert c[0] == a[0] && c[1..] == a[1..] + b;
      FlattenAppend(w, a[1..], b);
      assert Flatten(w, c) == Wire(w, a[0]) + Flatten(w, a[1..] + b);
      assert Flatten(w, a) == Wire(w, a[0]) + Flatten(w, a[1..]);
      AppendAssoc(Wire(w, a[0]), Flatten(w, a[1..]), Flatten(w, b));
    } else {
      assert a + b == b;
    }
  }

  /** Three exchanges, as a write-protected write is, put their wires end to end. */
  lemma FlattenThree(w: Wiring, es: seq<Exchange>)
    requires |es| == 3
    ensures Flatten(w, es) == Wire(w, es[0]) + Wire(w, es[1]) + Wire(w, es[2])
  {
    var t := es[1..];
    var u := t[1..];
    assert t[0] == es[1] && u[0] == es[2] && u[1..] == [];
    assert Flatten(w, u) == Wire(w, es[2]);
    assert Flatten(w, t) == Wire(w, es[1]) + Wire(w, es[2]);
  }

  /** A trace that grew by three exchanges, one at a time. */
  lemma ThreeTrace(w: Wiring, es: seq<Exchange>,
                   t0: seq<PinEvent>, t1: seq<PinEvent>, t2: seq<PinEvent>, t3: seq<PinEvent>)
    requires |es| == 3
    requires t1 == t0 + Wire(w, es[0]) && t2 == t1 + Wire(w, es[1]) && t3 == t2 + Wire(w, es[2])
    ensures t3 == t0 + Flatten(w, es)
  {
    FlattenThree(w, es);
    AppendAssoc(Wire(w, es[0]), Wire(w, es[1]), Wire(w, es[2]));
    AppendAssoc(t0, Wire(w, es[0]), Wire(w, es[1]) + Wire(w, es[2]));
    AppendAssoc(t0 + Wire(w, es[0]), Wire(w, es[1]), Wire(w, es[2]));
  }

  /** A read exchange followed by further exchanges. */
  lemma ReadThenWrites(w: Wiring, r: Exchange, ws: seq<Exchange>)
    ensures Flatten(w, [r] + ws) == Wire(w, r) + Flatten(w, ws)
  {
    assert ([r] + ws)[0] == r && ([r] + ws)[1..] == ws;
  }

  /** A trace that grew by a read exchange and then by further exchanges. */
  lemma ReadThenWritesTrace(w: Wiring, before: seq<PinEvent>, mid: seq<PinEvent>, after: seq<PinEvent>,
                            r: Exchange, ws: seq<Exchange>)
    requires mid == before + Wire(w, r) && after == mid + Flatten(w, ws)
    ensures after == before + Flatten(w, [r] + ws)
  {
    ReadThenWrites(w, r, ws);
  }

  /** A setter's exchanges are the write-protected write of its encoded argument. */
  lemma SetFieldIs(w: Wiring, f: Field, dat: nat, reg: nat, b: nat)
    requires reg == WriteAddress(f) && b == DecToHex(dat % Modulus(f))
    ensures Flatten(w, SetField(Assign(f, dat))) == Flatten(w, Protected(reg, b))
  {
  }

  /** The pin events f gives for each assignment, one assignment after another. */
  function Concat(f: Assignment -> seq<PinEvent>, asgs: seq<Assignment>): seq<PinEvent>
  {
    if asgs == [] then [] else f(asgs[0]) + Concat(f, asgs[1..])
  }

  /** A trace that grew by f of each assignment in turn has grown by their concatenation. */
  lemma {:induction false} ConcatTraces(f: Assignment -> seq<PinEvent>, asgs: seq<Assignment>,
                                        ts: seq<seq<PinEvent>>)
    requires |ts| == |asgs| + 1
    requires forall k :: 0 <= k < |asgs| ==> ts[k + 1] == ts[k] + f(asgs[k])
    ensures ts[|asgs|] == ts[0] + Concat(f, asgs)
  {
    if asgs == [] {
      assert ts[0] + [] == ts[0];
    } else {
      var rest := asgs[1..];
      ConcatTraces(f, rest, ts[1..]);
      AppendAssoc(ts[0], f(asgs[0]), Concat(f, rest));
    }
  }

  /** The setters' pin events, concatenated, are those of the run of setters. */
  lemma {:induction false} ConcatSetFields(w: Wiring, asgs: seq<Assignment>)
    ensures Concat(a => Flatten(w, SetField(a)), asgs) == Flatten(w, SetFields(asgs))
  {
    if asgs != [] {
      ConcatSetFields(w, asgs[1..]);
      FlattenAppend(w, SetField(asgs[0]), SetFields(asgs[1..]));
    }
  }

  lemma ConcatSeven(f: Assignment -> seq<PinEvent>, a0: Assignment, a1: Assignment, a2: Assignment,
                    a3: Assignment, a4: Assignment, a5: Assignment, a6: Assignment,
                    t0: seq<PinEvent>, t1: seq<PinEvent>, t2: seq<PinEvent>, t3: seq<PinEvent>,
                    t4: seq<PinEvent>, t5: seq<PinEvent>, t6: seq<PinEvent>, t7: seq<PinEvent>)
    requires t1 == t0 + f(a0) && t2 == t1 + f(a1) && t3 == t2 + f(a2) && t4 == t3 + f(a3)
    requires t5 == t4 + f(a4) && t6 == t5 + f(a5) && t7 == t6 + f(a6)
    ensures t7 == t0 + Concat(f, [a0, a1, a2, a3, a4, a5, a6])
  {
    var asgs := [a0, a1, a2, a3, a4, a5, a6];
    var ts := [t0, t1, t2, t3, t4, t5, t6, t7];
    forall k | 0 <= k < 7
      ensures ts[k + 1] == ts[k] + f(asgs[k])
    {
    }
    ConcatTraces(f, asgs, ts);
  }

  /** The trace after seven setter calls, one call at a time, is that of the run of the seven. */
  lemma SevenTrace(w: Wiring, a0: Assignment, a1: Assignment, a2: Assignment, a3: Assignment,
                   a4: Assignment, a5: Assignment, a6: Assignment,
                   t0: seq<PinEvent>, t1: seq<PinEvent>, t2: seq<PinEvent>, t3: seq<PinEvent>,
                   t4: seq<PinEvent>, t5: seq<PinEvent>, t6: seq<PinEvent>, t7: seq<PinEvent>)
    requires t1 == t0 + Flatten(w, SetField(a0))
    requires t2 == t1 + Flatten(w, SetField(a1))
    requires t3 == t2 + Flatten(w, SetField(a2))
    requires t4 == t3 + Flatten(w, SetField(a3))
    requires t5 == t4 + Flatten(w, SetField(a4))
    requires t6 == t5 + Flatten(w, SetField(a5))
    requires t7 == t6 + Flatten(w, SetField(a6))
    ensures t7 == t0 + Flatten(w, SetFields([a0, a1, a2, a3, a4, a5, a6]))
  {
    var f := a => Flatten(w, SetField(a));
    ConcatSeven(f, a0, a1, a2, a3, a4, a5, a6, t0, t1, t2, t3, t4, t5, t6, t7);
    ConcatSetFields(w, [a0, a1, a2, a3, a4, a5, a6]);
  }

  lemma AppendAssoc(a: seq<PinEvent>, b: seq<PinEvent>, c: seq<PinEvent>)
    ensures a + b + c == a + (b + c)
  {
  }

  /**
   * Chip select frames each exchange: on the chip-select line an exchange
   * shows exactly one high then one low; on the data line it carries the
   * address bits, then the value bits for a write; a read samples exactly
   * its eight levels.
   */
  lemma WireLines(w: Wiring, e: Exchange)
    requires Distinct(w)
    ensures Levels(w.cs, Wire(w, e)) == [1, 0]
    ensures e.WriteReg? ==> Levels(w.dio, Wire(w, e)) == ByteBits(e.addr) + ByteBits(e.value)
    ensures e.ReadReg? ==> Levels(w.dio, Wire(w, e)) == ByteBits(e.addr)
    ensures e.ReadReg? ==> Samples(w.dio, Wire(w, e)) == e.samples
    ensures e.WriteReg? ==> Samples(w.dio, Wire(w, e)) == []
  {
    match e
    case WriteReg(addr, value) => WriteRegLines(w, addr, value);
    case ReadReg(addr, samples) => ReadRegLines(w, addr, samples);
  }

  lemma WriteRegLines(w: Wiring, addr: nat, value: nat)
    requires Distinct(w)
    ensures Levels(w.cs, Wire(w, WriteReg(addr, value))) == [1, 0]
    ensures Levels(w.dio, Wire(w, WriteReg(addr, value))) == ByteBits(addr) + ByteBits(value)
    ensures Samples(w.dio, Wire(w, WriteReg(addr, value))) == []
  {
    FramedLines(w, ByteBits(addr), WriteFrames(w, ByteBits(value)));
    WriteFramesLines(w, ByteBits(value), w.cs);
    WriteFramesLines(w, ByteBits(value), w.dio);
  }

  lemma ReadRegLines(w: Wiring, addr: nat, samples: seq<Bit>)
    requires Distinct(w)
    ensures Levels(w.cs, Wire(w, ReadReg(addr, samples))) == [1, 0]
    ensures Levels(w.dio, Wire(w, ReadReg(addr, samples))) == ByteBits(addr)
    ensures Samples(w.dio, Wire(w, ReadReg(addr, samples))) == samples
  {
    FramedLines(w, ByteBits(addr), ReadFrames(w, samples));
    ReadFramesLines(w, samples, w.cs);
    ReadFramesLines(w, samples, w.dio);
  }

  /** The lines of an exchange: chip select high, address frames, body, chip select low. */
  lemma FramedLines(w: Wiring, addrBits: seq<Bit>, body: seq<PinEvent>)
    requires Distinct(w)
    ensures var events := [Write(w.cs, 1)] + WriteFrames(w, addrBits) + body + [Write(w.cs, 0)];
      Levels(w.cs, events) == [1] + Levels(w.cs, body) + [0] &&
      Levels(w.dio, events) == addrBits + Levels(w.dio, body) &&
      Samples(w.dio, events) == Samples(w.dio, body)
  {
    FramedLine(w, w.cs, addrBits, body);
    FramedLine(w, w.dio, addrBits, body);
  }

  lemma FramedLine(w: Wiring, p: Pin, addrBits: seq<Bit>, body: seq<PinEvent>)
    requires Distinct(w) && (p == w.cs || p == w.dio)
    ensures var events := [Write(w.cs, 1)] + WriteFrames(w, addrBits) + body + [Write(w.cs, 0)];
      (p == w.cs ==> Levels(p, events) == [1] + Levels(p, body) + [0]) &&
      (p == w.dio ==> Levels(p, events) == addrBits + Levels(p, body)) &&
      (p == w.dio ==> Samples(p, events) == Samples(p, body))
  {
    var open, close := [Write(w.cs, 1)], [Write(w.cs, 0)];
    var a := WriteFrames(w, addrBits);
    OneLine(p, open[0]);
    OneLine(p, close[0]);
    WriteFramesLines(w, addrBits, p);
    if p == w.cs {
      LevelsAround(p, open, a, body, close);
    } else {
      LevelsInside(p, open, a, body, close);
      SamplesInside(p, open, a, body, close);
    }
  }

  /** The levels of a framed body whose frame carries the levels [1] and [0] and whose header carries none. */
  lemma LevelsAround(p: Pin, open: seq<PinEvent>, a: seq<PinEvent>, body: seq<PinEvent>, close: seq<PinEvent>)
    requires Levels(p, open) == [1] && Levels(p, a) == [] && Levels(p, close) == [0]
    ensures Levels(p, open + a + body + close) == [1] + Levels(p, body) + [0]
  {
    LevelsFour(p, open, a, body, close);
    assert [1] + [] == [1];
  }

  /** The levels of a framed body whose frame carries no levels. */
  lemma LevelsInside(p: Pin, open: seq<PinEvent>, a: seq<PinEvent>, body: seq<PinEvent>, close: seq<PinEvent>)
    requires Levels(p, open) == [] && Levels(p, close) == []
    ensures Levels(p, open + a + body + close) == Levels(p, a) + Levels(p, body)
  {
    LevelsFour(p, open, a, body, close);
    var x, y := Levels(p, a), Levels(p, body);
    assert [] + x + y + [] == x + y;
  }

  /** The samples of a framed body whose frame and header sample nothing. */
  lemma SamplesInside(p: Pin, open: seq<PinEvent>, a: seq<PinEvent>, body: seq<PinEvent>, close: seq<PinEvent>)
    requires Samples(p, open) == [] && Samples(p, a) == [] && Samples(p, close) == []
    ensures Samples(p, open + a + body + close) == Samples(p, body)
  {
    SamplesFour(p, open, a, body, close);
    var y := Samples(p, body);
    assert [] + [] + y + [] == y;
  }

  lemma OneLine(p: Pin, x: PinEvent)
    ensures Levels(p, [x]) == if x.Write? && x.pin == p then [x.level] else []
    ensures Samples(p, [x]) == if x.Read? && x.pin == p then [x.level] else []
  {
    assert [x][1..] == [];
  }

  lemma LevelsFour(p: Pin, a: seq<PinEvent>, b: seq<PinEvent>, c: seq<PinEvent>, d: seq<PinEvent>)
    ensures Levels(p, a + b + c + d) == Levels(p, a) + Levels(p, b) + Levels(p, c) + Levels(p, d)
  {
    LevelsAppend(p, a + b + c, d);
    LevelsAppend(p, a + b, c);
    LevelsAppend(p, a, b);
  }

  lemma SamplesFour(p: Pin, a: seq<PinEvent>, b: seq<PinEvent>, c: seq<PinEvent>, d: seq<PinEvent>)
    ensures Samples(p, a + b + c + d) == Samples(p, a) + Samples(p, b) + Samples(p, c) + Samples(p, d)
  {
    SamplesAppend(p, a + b + c, d);
    SamplesAppend(p, a + b, c);
    SamplesAppend(p, a, b);
  }

  /**
   * A sequence of exchanges raises and lowers chip select once per exchange
   * and at no other time.
   */
  lemma {:induction false} ChipSelectFraming(w: Wiring, es: seq<Exchange>)
    requires Distinct(w)
    ensures Levels(w.cs, Flatten(w, es)) == Brackets(|es|)
  {
    if es != [] {
      WireLines(w, es[0]);
      ChipSelectFraming(w, es[1..]);
      LevelsAppend(w.cs, Wire(w, es[0]), Flatten(w, es[1..]));
    }
  }

  /** The chip, reassembling the data bits of a write, sees the address and value bytes. */
  lemma WriteRegDelivers(w: Wiring, addr: nat, value: nat)
    requires Distinct(w)
    ensures |Levels(w.dio, Wire(w, WriteReg(addr, value)))| == 16
    ensures Assemble(Levels(w.dio, Wire(w, WriteReg(addr, value)))[..8]) == addr % 256
    ensures Assemble(Levels(w.dio, Wire(w, WriteReg(addr, value)))[8..]) == value % 256
  {
    WireLines(w, WriteReg(addr, value));
    var d := Levels(w.dio, Wire(w, WriteReg(addr, value)));
    assert d[..8] == ByteBits(addr) && d[8..] == ByteBits(value);
    Loopback(addr);
    Loopback(value);
  }

  /**
   * A write-protected write shows, on the data line, the write-protect
   * address and 0, then the target address and value, then the
   * write-protect address and 0 again: protection is lifted and never
   * restored.
   */
  lemma ProtectedDataLine(w: Wiring, addr: nat, value: nat)
    requires Distinct(w)
    ensures Levels(w.dio, Flatten(w, Protected(addr, value))) ==
      ByteBits(RegWp) + ByteBits(0) + ByteBits(addr) + ByteBits(value) + ByteBits(RegWp) + ByteBits(0)
  {
    ThreeWritesDataLine(w, RegWp, 0, addr, value, RegWp, 0);
  }

  /** On the data line, three register writes carry their six bytes in order. */
  lemma ThreeWritesDataLine(w: Wiring, a0: nat, v0: nat, a1: nat, v1: nat, a2: nat, v2: nat)
    requires Distinct(w)
    ensures Levels(w.dio, Flatten(w, [WriteReg(a0, v0), WriteReg(a1, v1), WriteReg(a2, v2)])) ==
      ByteBits(a0) + ByteBits(v0) + ByteBits(a1) + ByteBits(v1) + ByteBits(a2) + ByteBits(v2)
  {
    var es := [WriteReg(a0, v0), WriteReg(a1, v1), WriteReg(a2, v2)];
    FlattenThree(w, es);
    var a, b, c := Wire(w, es[0]), Wire(w, es[1]), Wire(w, es[2]);
    WriteRegLines(w, a0, v0);
    WriteRegLines(w, a1, v1);
    WriteRegLines(w, a2, v2);
    LevelsAppend(w.dio, a + b, c);
    LevelsAppend(w.dio, a, b);
  }

  /** Chip select rises and falls three times during a write-protected write. */
  lemma ProtectedFraming(w: Wiring, addr: nat, value: nat)
    requires Distinct(w)
    ensures Levels(w.cs, Flatten(w, Protected(addr, value))) == [1, 0, 1, 0, 1, 0]
  {
    ChipSelectFraming(w, Protected(addr, value));
    assert Brackets(1) == [1, 0];
    assert Brackets(2) == [1, 0] + Brackets(1);
  }

  // ---------------------------------------------------------------------
  // Field setters

  /**
   * A run of setters is three exchanges per setter, in call order:
   * write-protect := 0, the field's register := its encoded argument,
   * write-protect := 0.
   */
  lemma {:induction false} SetFieldsAt(asgs: seq<Assignment>, k: nat)
    requires k < |asgs|
    ensures |SetFields(asgs)| == 3 * |asgs|
    ensures SetFields(asgs)[3 * k .. 3 * k + 3] == SetField(asgs[k])
  {
    SetFieldsLength(asgs);
    var h, r := SetField(asgs[0]), SetFields(asgs[1..]);
    assert SetFields(asgs) == h + r;
    if k > 0 {
      SetFieldsAt(asgs[1..], k - 1);
      assert asgs[1..][k - 1] == asgs[k];
      SliceAfter(h, r, 3 * (k - 1));
    } else {
      SliceAfter(h, r, 0);
    }
  }

  /** Indexing past a three-exchange prefix. */
  lemma SliceAfter(h: seq<Exchange>, r: seq<Exchange>, i: nat)
    requires |h| == 3
    ensures (h + r)[0 .. 3] == h
    ensures i + 3 <= |r| ==> (h + r)[i + 3 .. i + 6] == r[i .. i + 3]
  {
  }

  /** The middle exchange of setter k is the write of its encoded argument to its field's register. */
  lemma SetFieldsTarget(asgs: seq<Assignment>, k: nat)
    requires k < |asgs|
    ensures |SetFields(asgs)| == 3 * |asgs|
    ensures SetFields(asgs)[3 * k] == WriteReg(RegWp, 0)
    ensures SetFields(asgs)[3 * k + 1] == WriteReg(WriteAddress(asgs[k].field), Encode(asgs[k].field, asgs[k].value))
    ensures SetFields(asgs)[3 * k + 2] == WriteReg(RegWp, 0)
  {
    SetFieldsAt(asgs, k);
    var es := SetFields(asgs);
    var part := es[3 * k .. 3 * k + 3];
    assert es[3 * k] == part[0] && es[3 * k + 1] == part[1] && es[3 * k + 2] == part[2];
  }

  lemma {:induction false} SetFieldsLength(asgs: seq<Assignment>)
    ensures |SetFields(asgs)| == 3 * |asgs|
  {
    if asgs != [] {
      SetFieldsLength(asgs[1..]);
    }
  }

  /**
   * Setters write nothing but 0 to the write-protect register (they never
   * restore protection), and every byte they write elsewhere is BCD.
   */
  lemma {:induction false} SetFieldsWrites(asgs: seq<Assignment>, e: Exchange)
    requires e in SetFields(asgs)
    ensures e.WriteReg?
    ensures e.addr == RegWp ==> e.value == 0
    ensures e.addr != RegWp ==> IsBcd(e.value) && e.value <= 0x99
  {
    if asgs != [] {
      var a := asgs[0];
      FieldAddressesDistinct(a.field, a.field);
      if e !in SetField(a) {
        SetFieldsWrites(asgs[1..], e);
      }
    }
  }

  /**
   * The bulk setter makes seven write-protected writes, to year, month, day,
   * weekday, hour, minute and second in that order, each with the byte the
   * field's own setter would write.
   */
  lemma DateTimeWrites(year: nat, month: nat, day: nat, weekday: nat,
                       hour: nat, minute: nat, second: nat)
    ensures var es := SetFields(DateTimeAssignments(year, month, day, weekday, hour, minute, second));
      |es| == 21 &&
      es[1] == WriteReg(RegYear, Encode(Year, year)) &&
      es[4] == WriteReg(RegMonth, Encode(Month, month)) &&
      es[7] == WriteReg(RegDay, Encode(Day, day)) &&
      es[10] == WriteReg(RegWeekday, Encode(Weekday, weekday)) &&
      es[13] == WriteReg(RegHour, Encode(Hour, hour)) &&
      es[16] == WriteReg(RegMinute, Encode(Minute, minute)) &&
      es[19] == WriteReg(RegSecond, Encode(Second, second))
  {
    var asgs := DateTimeAssignments(year, month, day, weekday, hour, minute, second);
    SetFieldsTarget(asgs, 0);
    SetFieldsTarget(asgs, 1);
    SetFieldsTarget(asgs, 2);
    SetFieldsTarget(asgs, 3);
    SetFieldsTarget(asgs, 4);
    SetFieldsTarget(asgs, 5);
    SetFieldsTarget(asgs, 6);
  }
}
