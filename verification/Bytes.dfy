/** Bytes and the fixed-width integers that the wire formats carry, most significant byte first.
  * A narrowing conversion such as Go's uint16(n) is written out as a remainder. */
module Bytes {

  type byte = x: int | 0 <= x < 0x100
  type uint16 = x: int | 0 <= x < 0x1_0000
  type uint32 = x: int | 0 <= x < 0x1_0000_0000

  function Narrow16(n: nat): uint16 {
    n % 0x1_0000
  }

  function Narrow32(n: nat): uint32 {
    n % 0x1_0000_0000
  }

  function PutUint16(v: uint16): seq<byte> {
    [v / 0x100, v % 0x100]
  }

  function Uint16(b: seq<byte>): uint16
    requires |b| == 2
  {
    b[0] as int * 0x100 + b[1]
  }

  function PutUint32(v: uint32): seq<byte> {
    PutUint16(v / 0x1_0000) + PutUint16(v % 0x1_0000)
  }

  function Uint32(b: seq<byte>): uint32
    requires |b| == 4
  {
    Uint16(b[..2]) as int * 0x1_0000 + Uint16(b[2..])
  }

  function Zeros(n: nat): (z: seq<byte>)
    ensures |z| == n
  {
    seq(n, _ => 0)
  }

  /** The two conversions are inverse to each other. */
  lemma Uint16Bijection(v: uint16, b: seq<byte>)
    ensures Uint16(PutUint16(v)) == v
    ensures |b| == 2 ==> PutUint16(Uint16(b)) == b
  {
  }

  lemma Uint32Bijection(v: uint32, b: seq<byte>)
    ensures Uint32(PutUint32(v)) == v
    ensures |b| == 4 ==> PutUint32(Uint32(b)) == b
  {
    assert PutUint32(v)[..2] == PutUint16(v / 0x1_0000);
    assert PutUint32(v)[2..] == PutUint16(v % 0x1_0000);
    if |b| == 4 {
      Uint16Bijection(0, b[..2]);
      Uint16Bijection(0, b[2..]);
      assert Uint32(b) / 0x1_0000 == Uint16(b[..2]);
      assert Uint32(b) % 0x1_0000 == Uint16(b[2..]);
      assert b == b[..2] + b[2..];
    }
  }

  lemma FourBytes(v: uint32)
    ensures |PutUint32(v)| == 4 && Uint32(PutUint32(v)) == v
  {
    Uint32Bijection(v, []);
  }

  /** The most significant byte comes first. */
  lemma BigEndian(v: uint16, w: uint32)
    ensures PutUint16(v)[0] as int * 0x100 + PutUint16(v)[1] == v
    ensures var b := PutUint32(w);
            |b| == 4 && b[0] as int * 0x100_0000 + b[1] as int * 0x1_0000 + b[2] as int * 0x100 + b[3] == w
  {
    assert w == (w / 0x1_0000) * 0x1_0000 + w % 0x1_0000;
  }
}
