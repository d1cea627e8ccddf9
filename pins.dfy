/**
 * The digital pin collaborator (`pins.digitalWritePin`, `pins.digitalReadPin`)
 * seen as a bus: every write and every read is appended to a trace, and
 * the level a read returns is taken from an input stream that stands for
 * whatever the chip drives onto the data line.
 */
module Pins {
  import opened Bits

  /** A pin identifier. */
  type Pin = nat

  datatype PinEvent =
    | Write(pin: Pin, level: Bit)  // the driver set the pin to level
    | Read(pin: Pin, level: Bit)   // the driver sampled level on the pin

  /** The next n levels of the input stream, starting with read number from. */
  function Window(input: nat -> Bit, from: nat, n: nat): (s: seq<Bit>)
    ensures |s| == n
    ensures forall k :: 0 <= k < n ==> s[k] == input(from + k)
  {
    seq(n, (k: int) requires 0 <= k => input(from + k))
  }

  class Bus {
    /** input(j) is the level the j-th read of a pin returns. */
    const input: nat -> Bit
    /** Every pin access so far, oldest first. */
    var trace: seq<PinEvent>
    /** The number of reads so far. */
    var sampled: nat

    constructor (input: nat -> Bit)
      ensures this.input == input && trace == [] && sampled == 0
    {
      this.input := input;
      trace := [];
      sampled := 0;
    }

    /** The levels the next n reads will return. */
    function Upcoming(n: nat): (s: seq<Bit>)
      reads this
      ensures |s| == n
    {
      Window(input, sampled, n)
    }

    method DigitalWritePin(pin: Pin, level: Bit)
      modifies this
      ensures trace == old(trace) + [Write(pin, level)]
      ensures sampled == old(sampled)
    {
      trace := trace + [Write(pin, level)];
    }

    method DigitalReadPin(pin: Pin) returns (level: Bit)
      modifies this
      ensures level == input(old(sampled))
      ensures trace == old(trace) + [Read(pin, level)]
      ensures sampled == old(sampled) + 1
    {
      level := input(sampled);
      trace := trace + [Read(pin, level)];
      sampled := sampled + 1;
    }
  }
}
