/**
 * The value types of the boostpow library that the notification carries.
 * Only their shape is modelled here; their hex codecs are collaborators
 * (see module Stratum).
 */
module Boost {

  type byte = x: int | 0 <= x < 256

  /** A byte buffer with its bytes in memory order. */
  datatype Digest = Digest(buffer: seq<byte>)

  /** `boostpow.Digest32`: always exactly 32 bytes. */
  type Digest32 = d: Digest | |d.buffer| == 32 witness Digest(seq(32, _ => 0))

  /** `boostpow.Bytes`: a byte buffer of any length. */
  datatype Bytes = Bytes(buffer: seq<byte>)

  type int32 = x: int | -0x8000_0000 <= x < 0x8000_0000
  type uint32 = x: int | 0 <= x < 0x1_0000_0000

  /** `boostpow.Int32Little`: a signed 32-bit value written little-endian. */
  datatype Int32Little = Int32Little(number: int32)

  /** `boostpow.UInt32Little`: an unsigned 32-bit value written little-endian. */
  datatype UInt32Little = UInt32Little(number: uint32)

  /** `boostpow.Difficulty`: a compact target, whose representation is not modelled. */
  type Difficulty(==)
}
