/** CRC-16/CCITT-FALSE of app/core/protocol.py: polynomial 0x1021, initial
    value 0xFFFF, bits taken most significant first, no final XOR. The
    source keeps a Python integer and masks it with 0xFFFF after every
    shift; here the register is a 16-bit bit-vector, whose left shift drops
    bit 16 exactly as that mask does. */
module Crc {
  import opened Common

  const Poly: bv16 := 0x1021
  const Init: bv16 := 0xFFFF
  const BitsPerByte: nat := 8

  /** One step of the inner loop: shift left, XOR in the polynomial when the
      bit shifted out was set. */
  function Shift(crc: bv16): bv16
  {
    if crc & 0x8000 != 0 then (crc << 1) ^ Poly else crc << 1
  }

  /** `n` steps; a byte takes eight, the inner `for _ in range(8)`. */
  function ShiftN(crc: bv16, n: nat): bv16
    decreases n
  {
    if n == 0 then crc else Shift(ShiftN(crc, n - 1))
  }

  /** One byte folded into the register: XOR it into the high half, then shift eight times. */
  function AddByte(crc: bv16, b: Byte): bv16
  {
    ShiftN(crc ^ ((b as bv16) << 8), BitsPerByte)
  }

  /** The register after the whole of `data`, defined on its last byte so that
      it follows the order in which the loop consumes the input. */
  function Register(data: seq<Byte>): bv16
  {
    if data == [] then Init else AddByte(Register(data[..|data| - 1]), data[|data| - 1])
  }

  /** `crc16_ccitt_false(data)` as an integer. */
  function Crc16(data: seq<Byte>): (r: int)
    ensures 0 <= r <= 0xFFFF
  {
    Register(data) as int
  }

  /** The inner loop of `crc16_ccitt_false`: one byte XORed into the high half,
      then eight shifts. */
  method FoldByte(crc0: bv16, b: Byte) returns (crc: bv16)
    ensures crc == AddByte(crc0, b)
  {
    crc := crc0 ^ ((b as bv16) << 8);
    ghost var start := crc;
    var j := 0;
    while j < BitsPerByte
      invariant 0 <= j <= BitsPerByte
      invariant crc == ShiftN(start, j)
    {
      crc := Shift(crc);
      j := j + 1;
    }
  }

  /** The outer loop of `crc16_ccitt_false`, proved to compute `Crc16`. */
  method ComputeCrc16(data: seq<Byte>) returns (r: int)
    ensures r == Crc16(data)
    ensures 0 <= r <= 0xFFFF
  {
    var crc: bv16 := 0xFFFF;
    var i := 0;
    while i < |data|
      invariant 0 <= i <= |data|
      invariant crc == Register(data[..i])
    {
      RegisterPrefix(data, i);
      crc := FoldByte(crc, data[i]);
      i := i + 1;
    }
    assert data[..i] == data;
    r := crc as int;
  }

  /** The prefix one byte longer folds that byte into the register. */
  lemma RegisterPrefix(data: seq<Byte>, i: nat)
    requires i < |data|
    ensures Register(data[..i + 1]) == AddByte(Register(data[..i]), data[i])
  {
    assert data[..i + 1][..i] == data[..i];
  }

  /** The register starts at 0xFFFF, so the empty input yields it unchanged. */
  lemma EmptyInput()
    ensures Crc16([]) == 0xFFFF
  {
  }

  lemma EightShifts(x: bv16)
    ensures ShiftN(x, BitsPerByte) == Shift(Shift(Shift(Shift(Shift(Shift(Shift(Shift(x))))))))
  {
    var y1 := Shift(x);
    var y2 := Shift(y1);
    var y3 := Shift(y2);
    var y4 := Shift(y3);
    var y5 := Shift(y4);
    var y6 := Shift(y5);
    var y7 := Shift(y6);
    assert ShiftN(x, 1) == y1;
    assert ShiftN(x, 2) == y2;
    assert ShiftN(x, 3) == y3;
    assert ShiftN(x, 4) == y4;
    assert ShiftN(x, 5) == y5;
    assert ShiftN(x, 6) == y6;
    assert ShiftN(x, 7) == y7;
  }

  lemma AddByteValue(crc: bv16, b: Byte, expected: bv16)
    requires Shift(Shift(Shift(Shift(Shift(Shift(Shift(Shift(crc ^ ((b as bv16) << 8))))))))) == expected
    ensures AddByte(crc, b) == expected
  {
    EightShifts(crc ^ ((b as bv16) << 8));
  }

  /** Appending one byte folds it into the register. */
  lemma RegisterSnoc(p: seq<Byte>, b: Byte, before: bv16, after: bv16)
    requires Register(p) == before && AddByte(before, b) == after
    ensures Register(p + [b]) == after
  {
    assert (p + [b])[..|p|] == p;
  }

  /** The register after each of the first three digits of "123456789". */
  lemma DigitStepsLow()
    ensures AddByte(0xFFFF, 0x31) == 0xC782
    ensures AddByte(0xC782, 0x32) == 0x3DBA
    ensures AddByte(0x3DBA, 0x33) == 0x5BCE
  {
    AddByteValue(0xFFFF, 0x31, 0xC782);
    AddByteValue(0xC782, 0x32, 0x3DBA);
    AddByteValue(0x3DBA, 0x33, 0x5BCE);
  }

  /** The register after each of the middle three digits. */
  lemma DigitStepsMid()
    ensures AddByte(0x5BCE, 0x34) == 0x5349
    ensures AddByte(0x5349, 0x35) == 0x4560
    ensures AddByte(0x4560, 0x36) == 0x2EF4
  {
    AddByteValue(0x5BCE, 0x34, 0x5349);
    AddByteValue(0x5349, 0x35, 0x4560);
    AddByteValue(0x4560, 0x36, 0x2EF4);
  }

  /** The register after each of the last three digits. */
  lemma DigitStepsHigh()
    ensures AddByte(0x2EF4, 0x37) == 0x7718
    ensures AddByte(0x7718, 0x38) == 0xA12B
    ensures AddByte(0xA12B, 0x39) == 0x29B1
  {
    AddByteValue(0x2EF4, 0x37, 0x7718);
    AddByteValue(0x7718, 0x38, 0xA12B);
    AddByteValue(0xA12B, 0x39, 0x29B1);
  }

  /** The catalogued check input of CRC-16/CCITT-FALSE, the ASCII digits "123456789". */
  const CheckInput: seq<Byte> := [0x31, 0x32, 0x33, 0x34, 0x35, 0x36, 0x37, 0x38, 0x39]

  /** Its catalogued check value is 0x29B1. */
  lemma CheckValue()
    ensures Crc16(CheckInput) == 0x29B1
  {
    var s := CheckInput;
    assert s[..0] + [0x31] == s[..1];
    assert s[..1] + [0x32] == s[..2];
    assert s[..2] + [0x33] == s[..3];
    assert s[..3] + [0x34] == s[..4];
    assert s[..4] + [0x35] == s[..5];
    assert s[..5] + [0x36] == s[..6];
    assert s[..6] + [0x37] == s[..7];
    assert s[..7] + [0x38] == s[..8];
    assert s[..8] + [0x39] == s[..9];
    assert s[..9] == s;
    DigitStepsLow();
    DigitStepsMid();
    DigitStepsHigh();
    RegisterSnoc(s[..0], 0x31, 0xFFFF, 0xC782);
    RegisterSnoc(s[..1], 0x32, 0xC782, 0x3DBA);
    RegisterSnoc(s[..2], 0x33, 0x3DBA, 0x5BCE);
    RegisterSnoc(s[..3], 0x34, 0x5BCE, 0x5349);
    RegisterSnoc(s[..4], 0x35, 0x5349, 0x4560);
    RegisterSnoc(s[..5], 0x36, 0x4560, 0x2EF4);
    RegisterSnoc(s[..6], 0x37, 0x2EF4, 0x7718);
    RegisterSnoc(s[..7], 0x38, 0x7718, 0xA12B);
    RegisterSnoc(s[..8], 0x39, 0xA12B, 0x29B1);
  }
}
