/** Shared vocabulary: bytes, optional values and results with an error. */
module Common {

  /** One octet of a Python `bytes` object. */
  type Byte = x: int | 0 <= x < 256

  datatype Option<+T> = None | Some(value: T)

  datatype Result<+T, +E> = Ok(value: T) | Err(error: E)

  /** A sequence in which no element is 0x00. */
  predicate NoZero(s: seq<Byte>)
  {
    forall k | 0 <= k < |s| :: s[k] != 0
  }

  /** `struct.pack('<H', v)`: two bytes, low byte first. */
  function Le16(v: int): (r: seq<Byte>)
    requires 0 <= v < 0x1_0000
    ensures |r| == 2 && ReadLe16(r, 0) == v
  {
    [v % 256, v / 256]
  }

  /** `struct.unpack('<H', s[at:at+2])[0]`. */
  function ReadLe16(s: seq<Byte>, at: nat): (v: int)
    requires at + 2 <= |s|
    ensures 0 <= v < 0x1_0000
  {
    s[at] as int + 256 * (s[at + 1] as int)
  }

  function Min(a: int, b: int): int
  {
    if a <= b then a else b
  }

  function Max(a: int, b: int): int
  {
    if a >= b then a else b
  }
}
