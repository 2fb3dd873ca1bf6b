/** Bytes, and the little-endian 32-bit integers of the wire protocol. */
module Bytes {

  type Byte = x: int | 0 <= x < 256

  type I32 = x: int | -0x8000_0000 <= x < 0x8000_0000

  const I32_MAX: nat := 0x7FFF_FFFF

  function U32Of(b0: Byte, b1: Byte, b2: Byte, b3: Byte): (n: nat)
    ensures n < 0x1_0000_0000
  {
    b0 + 0x100 * b1 + 0x1_0000 * b2 + 0x100_0000 * b3
  }

  /** Two's complement. */
  function Signed(n: nat): (i: I32)
    requires n < 0x1_0000_0000
  {
    if n < 0x8000_0000 then n else n - 0x1_0000_0000
  }

  function U32At(bytes: seq<Byte>, offset: nat): (n: nat)
    requires offset + 4 <= |bytes|
    ensures n < 0x1_0000_0000
  {
    U32Of(bytes[offset], bytes[offset + 1], bytes[offset + 2], bytes[offset + 3])
  }

  function I32At(bytes: seq<Byte>, offset: nat): I32
    requires offset + 4 <= |bytes|
  {
    Signed(U32At(bytes, offset))
  }

  function Unsigned(i: I32): (n: nat)
    ensures n < 0x1_0000_0000 && Signed(n) == i
  {
    if i >= 0 then i else i + 0x1_0000_0000
  }

  function Le32(i: I32): (bytes: seq<Byte>)
    ensures |bytes| == 4
  {
    var n := Unsigned(i);
    [n % 0x100, n / 0x100 % 0x100, n / 0x1_0000 % 0x100, n / 0x100_0000]
  }

  lemma {:induction false} FourBytes(n: nat)
    requires n < 0x1_0000_0000
    ensures n / 0x100_0000 < 0x100
    ensures n == n % 0x100 + 0x100 * (n / 0x100 % 0x100) + 0x1_0000 * (n / 0x1_0000 % 0x100)
                 + 0x100_0000 * (n / 0x100_0000)
  {
    assert n / 0x1_0000 == n / 0x100 / 0x100;
    assert n / 0x100_0000 == n / 0x1_0000 / 0x100;
  }

  /** An integer written is the integer read, wherever it lies. */
  lemma {:induction false} Le32RoundTrip(i: I32, before: seq<Byte>, after: seq<Byte>)
    ensures I32At(before + Le32(i) + after, |before|) == i
    ensures U32At(before + Le32(i) + after, |before|) == Unsigned(i)
  {
    FourBytes(Unsigned(i));
    var all := before + Le32(i) + after;
    var k := |before|;
    assert all[k] == Le32(i)[0] && all[k + 1] == Le32(i)[1] && all[k + 2] == Le32(i)[2] && all[k + 3] == Le32(i)[3];
  }

  /** The integer depends on its four bytes alone. */
  lemma {:induction false} I32Within(bytes: seq<Byte>, offset: nat, from: nat, to: nat)
    requires from <= offset && offset + 4 <= to <= |bytes|
    ensures I32At(bytes[from..to], offset - from) == I32At(bytes, offset)
  {
  }

  /** The sixteen bytes every message starts with. */
  function Header(length: nat, requestId: I32, responseTo: I32, code: I32): (bytes: seq<Byte>)
    requires length <= I32_MAX
    ensures |bytes| == 16
  {
    Le32(length) + Le32(requestId) + Le32(responseTo) + Le32(code)
  }

  lemma {:induction false} HeaderReads(length: nat, requestId: I32, responseTo: I32, code: I32, rest: seq<Byte>)
    requires length <= I32_MAX
    ensures var bytes := Header(length, requestId, responseTo, code) + rest;
            && I32At(bytes, 0) == length && I32At(bytes, 4) == requestId
            && I32At(bytes, 8) == responseTo && I32At(bytes, 12) == code
  {
    var a, b, d, e := Le32(length), Le32(requestId), Le32(responseTo), Le32(code);
    var bytes := Header(length, requestId, responseTo, code) + rest;
    assert bytes == [] + a + (b + d + e + rest);
    Le32RoundTrip(length, [], b + d + e + rest);
    assert bytes == a + b + (d + e + rest);
    Le32RoundTrip(requestId, a, d + e + rest);
    assert bytes == a + b + d + (e + rest);
    Le32RoundTrip(responseTo, a + b, e + rest);
    assert bytes == a + b + d + e + rest;
    Le32RoundTrip(code, a + b + d, rest);
  }
}
