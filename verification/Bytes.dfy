/**
 An unsigned 8-bit integer as its eight bits, most significant first, with the bitwise
 operators of C that the firmware uses on it.
 */
module Bytes {

  type Byte = b: seq<bool> | |b| == 8 witness [false, false, false, false, false, false, false, false]

  /** x ^ y, on bit strings of any equal length. */
  function Xor(x: seq<bool>, y: seq<bool>): (z: seq<bool>)
    requires |x| == |y|
    ensures |z| == |x|
    ensures forall i :: 0 <= i < |x| ==> z[i] == (x[i] != y[i])
  {
    seq(|x|, i requires 0 <= i < |x| => x[i] != y[i])
  }

  /** x | y */
  function Or(x: Byte, y: Byte): (z: Byte)
    ensures forall i :: 0 <= i < 8 ==> z[i] == (x[i] || y[i])
  {
    seq(8, i requires 0 <= i < 8 => x[i] || y[i])
  }

  /** x & ~y */
  function AndNot(x: Byte, y: Byte): (z: Byte)
    ensures forall i :: 0 <= i < 8 ==> z[i] == (x[i] && !y[i])
  {
    seq(8, i requires 0 <= i < 8 => x[i] && !y[i])
  }

  /** (uint8_t)(x << 1) */
  function Shl(x: Byte): (z: Byte)
    ensures forall i :: 0 <= i < 8 ==> z[i] == (i < 7 && x[i + 1])
  {
    seq(8, i requires 0 <= i < 8 => i < 7 && x[i + 1])
  }

  /** 1 << k */
  function Bit(k: nat): (z: Byte)
    ensures forall i :: 0 <= i < 8 ==> z[i] == (i == 7 - k)
  {
    seq(8, i => i == 7 - k)
  }

  function Zero(): (z: Byte)
    ensures forall i :: 0 <= i < 8 ==> !z[i]
  {
    seq(8, i => false)
  }
}
