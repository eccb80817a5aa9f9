/**
 * Bytes and the little-endian unsigned integers that Node's `Buffer` reads
 * from them (`readUInt16LE`, `readUInt32LE`).
 */
module Bytes {

  type Byte = b: int | 0 <= b < 256

  /** 256 to the power n: one more than the largest value n bytes can hold. */
  function Pow256(n: nat): (p: nat)
    ensures p >= 1
  {
    if n == 0 then 1 else 256 * Pow256(n - 1)
  }

  /** The unsigned value of `s` read least-significant byte first (reference definition). */
  function LittleEndian(s: seq<Byte>): (v: nat)
    ensures v < Pow256(|s|)
  {
    if s == [] then 0 else s[0] + 256 * LittleEndian(s[1..])
  }

  /** The n bytes that store `v` least-significant byte first. */
  function ToLittleEndian(v: nat, n: nat): (s: seq<Byte>)
    requires v < Pow256(n)
    ensures |s| == n
  {
    if n == 0 then [] else [v % 256] + ToLittleEndian(v / 256, n - 1)
  }

  /** Encoding a value in n bytes and reading it back gives the value. */
  lemma {:induction false} LittleEndianOfTo(v: nat, n: nat)
    requires v < Pow256(n)
    ensures LittleEndian(ToLittleEndian(v, n)) == v
  {
    if n > 0 {
      LittleEndianOfTo(v / 256, n - 1);
      assert ToLittleEndian(v, n)[1..] == ToLittleEndian(v / 256, n - 1);
    }
  }

  /** Reading n bytes and encoding the value in n bytes gives the bytes back. */
  lemma {:induction false} ToOfLittleEndian(s: seq<Byte>)
    ensures ToLittleEndian(LittleEndian(s), |s|) == s
  {
    if s != [] {
      ToOfLittleEndian(s[1..]);
      var v := LittleEndian(s);
      assert v % 256 == s[0] && v / 256 == LittleEndian(s[1..]);
    }
  }

  /** `buf.readUInt16LE(offset)`: the unsigned 16-bit value at `offset`. */
  function ReadUInt16LE(buf: seq<Byte>, offset: nat): (v: nat)
    requires offset + 2 <= |buf|
    ensures v == LittleEndian(buf[offset..offset + 2])
    ensures v < 0x1_0000
  {
    assert buf[offset..offset + 2][1..] == [buf[offset + 1]];
    buf[offset] as int + 0x100 * buf[offset + 1] as int
  }

  /** `buf.readUInt32LE(offset)`: the unsigned 32-bit value at `offset`. */
  function ReadUInt32LE(buf: seq<Byte>, offset: nat): (v: nat)
    requires offset + 4 <= |buf|
    ensures v == LittleEndian(buf[offset..offset + 4])
    ensures v < 0x1_0000_0000
  {
    var s := buf[offset..offset + 4];
    assert s[1..] == buf[offset + 1..offset + 4];
    assert s[1..][1..] == buf[offset + 2..offset + 4];
    assert s[1..][1..][1..] == [buf[offset + 3]];
    assert LittleEndian(s[1..][1..]) == buf[offset + 2] as int + 0x100 * buf[offset + 3] as int;
    buf[offset] as int + 0x100 * buf[offset + 1] as int
      + 0x1_0000 * buf[offset + 2] as int + 0x100_0000 * buf[offset + 3] as int
  }
}
