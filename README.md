# DS1302 real-time-clock driver, modelled in Dafny

This project models the MakeCode driver for the DS1302 three-wire
real-time-clock chip (`main.ts`). The driver has four layers, each
modelled with the contracts of its operations and with lemmas about them:

- **BCD helpers.** `HexToDec` and `DecToHex` convert between packed
  binary-coded decimal and ordinary numbers (module `Bcd`). The JavaScript
  bit operators they and the driver use (`>>`, `<<`, `&`, `|`) are
  written out on naturals (module `Bits`).
- **Byte transport.** `WriteByte` and `ReadByte` move one byte, least
  significant bit first, over the data pin, with one clock pulse per bit.
- **Register transport.** `GetReg` and `SetReg` run one exchange between
  chip-select high and chip-select low. `wr` brackets a register write
  with two writes of 0 to the write-protect register.
- **Field API.**
  - The seven setters and seven getters, with the register map, moduli and
    BCD decoding in module `Registers`.
  - `start` and `pause`.
  - `ReadRam` and `WriteRam`.
  - The bulk setter `DateTime`.
  - The factory `Create`.

The pin primitives `pins.digitalWritePin` and `pins.digitalReadPin` are
modelled by the class `Pins.Bus`:

- A write appends a `Write(pin, level)` event to the bus trace.
- A read appends a `Read(pin, level)` event. It returns the next level of
  an input stream that stands for what the chip drives onto the data line.

The driver class `DS1302.ClockDS1302` keeps its three pins and the bus.
Every method states exactly which events it appends and how many levels it
consumes. The module `Protocol` holds the sequences those `ensures` clauses
are written with:

- `WriteFrames`/`ReadFrames` for a byte.
- `Wire` for one chip-select framed exchange.
- `Protected` for a write-protected write.
- `SetField`/`SetFields` for setter calls.

The lemmas in `Protocol` project such sequences onto one pin (`Levels`,
`Samples`) to show:

- what the chip-select and data lines carry;
- that the bits of a byte come back when they are read (loopback);
- that `DateTime` performs seven protected writes in a fixed order.

`start` and `pause` carry the block labels "Clock start" and "Clock
pause" (main.ts:174, 182). They mask the seconds value with `& 0x7f` and
`| 0x80`, which clear and set bit 7, the clock-halt flag of the seconds
register. Yet they go through `GetSecond`, which decodes the byte and
reduces it modulo 60, and through `SetSecond`, which reduces modulo 60
again and re-encodes. So the mask never reaches bit 7 of the register.
The model's `Start` and `Pause` do what the code does. "## Findings" below
gives the consequences and corrected versions that toggle bit 7 of the raw
byte, as the labels and masks intend.

## Model

| member | source | states |
|---|---|---|
| Bits.AndOne | main.ts:29 | `x & 1` is the lowest binary digit of x, the level sent for each bit |
| Bits.AccumulateStep | main.ts:38 | or-ing sample i shifted left by i into the bits gathered so far gives the number assembled from samples 0..i, still below 2^(i+1) |
| Bits.AndLowMask | main.ts:177 | masking with 2^n - 1 (`& 0x7f` for n = 7) keeps exactly t mod 2^n |
| Bits.OrPow2 | main.ts:185 | or-ing in 2^n (or-ing 0x80 for n = 7) sets digit n and leaves t unchanged if it was set, else adds 2^n |
| Bcd.HexToDecDigits | main.ts:14-16 | `HexToDec(b)` is ten times the high nibble plus the low nibble |
| Bcd.DecToHexRoundTrip | main.ts:14-20 | for d in 0..99, `DecToHex(d)` is a BCD byte of at most 0x99 and `HexToDec` gives d back |
| Bcd.HexToDecRoundTrip | main.ts:14-20 | for a byte whose nibbles are both at most 9, `HexToDec` gives 0..99 and `DecToHex` gives the byte back |
| Bcd.BcdImage | main.ts:14-20 | a byte is BCD if and only if it is `DecToHex(d)` for some d in 0..99 |
| Registers.WriteAddress | main.ts:3-9 | every field's write address lies in 0x80..0x8C and is even |
| Registers.FieldAddressesDistinct | main.ts:3-10 | two fields share a write address exactly when they are the same field; no field's read or write address is the write-protect register |
| Registers.Modulus | main.ts:71-121 | each setter's modulus (100, 13, 32, 8, 24, 60, 60) lies in 8..100 |
| Registers.Encode | main.ts:71-121 | the byte a setter writes is BCD, at most 0x99, and decodes to the argument reduced by the field's modulus |
| Registers.EncodeWraps | main.ts:71-121 | two arguments give the same byte if and only if they agree modulo the field's modulus |
| Registers.EncodeAtModulus | main.ts:71-121 | a setter given its field's modulus (`SetMonth(13)`, `SetDay(32)`, `SetHour(24)`, `SetWeekday(8)`) writes what it writes for 0 |
| Registers.Decode | main.ts:126-170 | the year getter returns at least 2000, the hour getter less than 24, the minute and second getters less than 60 |
| Registers.DecodeEncode | main.ts:71-170 | a getter decodes a setter's byte to the reduced argument, plus 2000 for the year |
| Registers.DecodeBounds | main.ts:126-170 | on any byte read from the bus the decoded value is at most 165 (2165 for the year), and at most 99 on a BCD byte |
| Registers.GetYearExample | main.ts:126-128 | the year getter turns register byte 0x23 into 2023 |
| Registers.RamWriteAddress | main.ts:200-202 | a RAM slot's write address is even and lies in 0xC0..0xFC |
| Registers.RamAddressing | main.ts:192-202 | a slot's read address is its write address plus one; two slot indexes name the same address if and only if they agree modulo 31 (31 acts as 0); RAM lies above the control register |
| Registers.StartAsWritten | main.ts:175-178 | `start` hands `SetSecond` the decoded second unchanged, so it writes `DecToHex(HexToDec(raw) % 60)` |
| Registers.PauseAsWritten | main.ts:183-186 | `pause` writes the second eight ahead of the current one, a byte below 0x60 whose bit 7 is clear |
| Registers.PauseAddsEight | main.ts:185 | for a second below 60, t or-ed with 0x80 is t + 128, which is t + 8 modulo 60 |
| Registers.EncodedSecondClear | main.ts:111-113 | every byte the second setter writes is below 0x60, so its bit 7 (the halt flag) is clear |
| Registers.PauseAtZero | main.ts:183-186 | pausing at second 0 writes 0x08 |
| Registers.StartWhenHalted | main.ts:175-178 | starting a halted clock at second 0 (raw 0x80) writes 0x20 where 0x00 was meant |
| Registers.HaltedSecondsHalts | main.ts:183-186 | the corrected pause byte has bit 7 set, keeps bits 0-6 of the raw byte and stays a byte |
| Registers.RunningSecondsRuns | main.ts:175-178 | the corrected start byte has bit 7 clear and equals the raw byte's bits 0-6 |
| Registers.PauseThenStart | main.ts:175-186 | a corrected start after a corrected pause restores bits 0-6 of the seconds byte from before the pause, with bit 7 clear |
| Pins.Bus.DigitalWritePin | main.ts:29-31 | a pin write appends one write event and consumes no input |
| Pins.Bus.DigitalReadPin | main.ts:38 | a pin read returns the next input level, appends one read event and advances the input by one |
| Protocol.WriteFrameStep | main.ts:28-32 | one iteration of the write loop extends the frames of bits 0..i-1 to those of bits 0..i |
| Protocol.ReadFrameStep | main.ts:37-41 | one iteration of the read loop extends the frames of samples 0..i-1 to those of samples 0..i |
| Protocol.WriteFramesAt | main.ts:27-33 | the frames of a bit sequence are three events per bit: data bit k, clock high, clock low, in ascending k |
| Protocol.WriteByteEventsAt | main.ts:27-33 | `WriteByte(v)` emits 24 events; events 3i, 3i+1 and 3i+2 set the data line to `(v >> i) & 1`, then the clock high, then low |
| Protocol.ReadFramesAt | main.ts:35-43 | the frames of a read are three events per bit: sample k of the data line, clock high, clock low |
| Protocol.WriteFramesLines | main.ts:27-33 | the data line carries exactly the bits written; no pin is sampled; no pin other than clock and data is touched |
| Protocol.ReadFramesLines | main.ts:35-43 | the data line is sampled exactly the given levels; only the clock is written |
| Protocol.Loopback | main.ts:27-43 | assembling the eight bits `WriteByte(v)` sends gives v mod 256 |
| Protocol.ReadByteBits | main.ts:35-43 | the byte assembled from eight samples is below 256 and its bit i is sample i |
| Protocol.WireLines | main.ts:45-59 | one exchange raises chip select once and lowers it once; the data line carries the address byte, then the value byte for a write, or nothing more for a read, whose samples are exactly the levels read |
| Protocol.WriteRegLines | main.ts:54-59 | a register write frames chip select as high then low, carries address then value on the data line and samples nothing |
| Protocol.ReadRegLines | main.ts:45-52 | a register read frames chip select as high then low, carries the address on the data line and samples exactly the given levels |
| Protocol.FramedLines | main.ts:45-59 | an exchange framed by chip select puts high and low on chip select around the body, and the address bits then the body's levels on the data line |
| Protocol.ChipSelectFraming | main.ts:45-59 | a run of n exchanges puts exactly n high-low pairs on chip select |
| Protocol.WriteRegDelivers | main.ts:54-59 | a register write's 16 data-line levels assemble to the address byte, then the value byte |
| Protocol.ProtectedDataLine | main.ts:61-65 | a protected write carries 0x8E, 0, address, value, 0x8E, 0 on the data line, in that order |
| Protocol.ProtectedFraming | main.ts:61-65 | a protected write is three chip-select frames |
| Protocol.SetFieldsAt | main.ts:214-222 | the exchanges of a run of setter calls are three per call, and call k's three come at positions 3k..3k+2 |
| Protocol.SetFieldsTarget | main.ts:214-222 | in a run of setter calls, positions 3k and 3k+2 clear write protection and 3k+1 writes call k's encoded byte to its field's address |
| Protocol.SetFieldsWrites | main.ts:61-121 | every exchange of the setters is a write: either 0 to the write-protect register or a BCD byte of at most 0x99 |
| Protocol.SevenTrace | main.ts:214-222 | seven setter calls made one after another extend the trace by the exchanges of the run of the seven |
| Protocol.DateTimeWrites | main.ts:214-222 | the bulk setter makes 21 exchanges; the protected writes go to year, month, day, weekday, hour, minute and second in that order, each with the byte that field's own setter writes |
| DS1302.ClockDS1302.constructor | main.ts:22-25 | a driver is bound to its clock, data and chip-select pins and to the bus |
| DS1302.ClockDS1302.WriteByte | main.ts:27-33 | appends exactly the write frames of the eight low bits of dat, least significant first; reads nothing |
| DS1302.ClockDS1302.ReadByte | main.ts:35-43 | returns the number assembled from the next eight input levels (below 256), appends their read frames and consumes eight levels |
| DS1302.ClockDS1302.GetReg | main.ts:45-52 | appends exactly one read exchange at reg and returns the byte `ReadByte` assembled |
| DS1302.ClockDS1302.SetReg | main.ts:54-59 | appends exactly one write exchange of dat at reg and reads nothing |
| DS1302.ClockDS1302.Wr | main.ts:61-65 | appends exactly the protected write: 0 to 0x8E, dat to reg, 0 to 0x8E |
| DS1302.ClockDS1302.SetYear | main.ts:71-73 | appends the year setter's protected write |
| DS1302.ClockDS1302.SetMonth | main.ts:79-81 | appends the month setter's protected write |
| DS1302.ClockDS1302.SetDay | main.ts:87-89 | appends the day setter's protected write |
| DS1302.ClockDS1302.SetHour | main.ts:95-97 | appends the hour setter's protected write |
| DS1302.ClockDS1302.SetMinute | main.ts:103-105 | appends the minute setter's protected write |
| DS1302.ClockDS1302.SetSecond | main.ts:111-113 | appends the second setter's protected write |
| DS1302.ClockDS1302.SetWeekday | main.ts:119-121 | appends the weekday setter's protected write |
| DS1302.ClockDS1302.GetYear | main.ts:126-128 | one read exchange at 0x8D; returns the decoded byte plus 2000 |
| DS1302.ClockDS1302.GetMonth | main.ts:133-135 | one read exchange at 0x89; returns the decoded byte |
| DS1302.ClockDS1302.GetDay | main.ts:140-142 | one read exchange at 0x87; returns the decoded byte |
| DS1302.ClockDS1302.GetHour | main.ts:147-149 | one read exchange at 0x85; returns the decoded byte mod 24, below 24 |
| DS1302.ClockDS1302.GetMinute | main.ts:154-156 | one read exchange at 0x83; returns the decoded byte mod 60, below 60 |
| DS1302.ClockDS1302.GetSecond | main.ts:161-163 | one read exchange at 0x81; returns the decoded byte mod 60, below 60 |
| DS1302.ClockDS1302.GetWeekday | main.ts:168-170 | one read exchange at 0x8B; returns the decoded byte |
| DS1302.ClockDS1302.Start | main.ts:175-178 | as written: one read of the seconds, then the second setter's protected write of the decoded second `& 0x7f` |
| DS1302.ClockDS1302.Pause | main.ts:183-186 | as written: one read of the seconds, then the second setter's protected write of the decoded second or-ed with 0x80 |
| DS1302.ClockDS1302.StartRunning | main.ts:175-178 | corrected start: one read of the seconds, then a protected write of the raw byte with bit 7 cleared |
| DS1302.ClockDS1302.PauseHalting | main.ts:183-186 | corrected pause: one read of the seconds, then a protected write of the raw byte with bit 7 set |
| DS1302.ClockDS1302.ReadRam | main.ts:192-194 | one read exchange at `0xC1 + (reg % 31) * 2`; returns the byte read |
| DS1302.ClockDS1302.WriteRam | main.ts:200-202 | one protected write of dat at `0xC0 + (reg % 31) * 2` |
| DS1302.ClockDS1302.DateTime | main.ts:214-222 | appends the exchanges of the year, month, day, weekday, hour, minute and second setters, in that order |
| DS1302.Create | main.ts:228-236 | a fresh driver bound to the three pins; appends clock low, then chip select low |
| DS1302.LoopbackByte | main.ts:27-43 | the data-line levels one driver writes for v, fed to another driver's `ReadByte`, give back v mod 256 |

## Left out

- Pin hardware: `pins.digitalWritePin` and `pins.digitalReadPin` are foreign I/O. They are modelled only as events on a trace and levels taken from an input stream.
- Chip behaviour: what the DS1302 stores or returns after a write is not part of the driver. No lemma claims that a write followed by a read returns the value.
- JavaScript number semantics: all values are naturals. Negative or fractional arguments, where `%` truncates toward zero, are not modelled. Nor is the 32-bit conversion of `>>`, `<<`, `&` and `|`. Large arguments to the setters and to `WriteRam` are still modelled exactly: `%` is exact on integer doubles, and `(dat >> i) & 1` for i below 8 only looks at bits 0-7, which the 32-bit conversion keeps.
- The `//%` block-editor annotations, including the argument ranges they suggest, are presentation metadata. The model places no `requires` on the arguments.
- Timing and concurrency: the driver has no delays and runs single-threaded.
- DS1302.Create: the source builds an empty object and assigns its pin fields afterwards. The model passes the pins to the constructor as constants, so a driver with unset pins is not represented.
- Pin distinctness: nothing in the source requires the three pins to differ. Lemmas that project a trace onto one line (those in `Protocol` taking `Distinct`) assume it; the method contracts do not.
- The control register (0x90) is declared in the source but never used; it appears only as a constant.

## Findings

| source | as written | input that shows it | evidently intended | confidence | as-written member | corrected member |
|---|---|---|---|---|---|---|
| main.ts:183-186 | `pause` reads the decoded second t (below 60) and hands t or-ed with 0x80, that is t + 128, to `SetSecond`, which reduces it modulo 60. It writes the second t + 8 with bit 7 clear, so the clock keeps running and jumps eight seconds ahead | seconds register 0x00: `pause` writes 0x08 | write the raw seconds byte with bit 7 (the clock-halt flag) set, keeping bits 0-6 (`PauseHalting`) | not executed | Registers.PauseAtZero | Registers.HaltedSecondsHalts |
| main.ts:175-178 | `start` reads the second through `GetSecond`, which decodes the whole byte including the halt flag and reduces modulo 60. It writes that value back re-encoded | halted clock at second 0, seconds register 0x80: `start` writes 0x20 (second 20) | write the raw seconds byte with bit 7 cleared, keeping bits 0-6: 0x00 here (`StartRunning`) | not executed | Registers.StartWhenHalted | Registers.RunningSecondsRuns |
