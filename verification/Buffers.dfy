/** A growable byte buffer: bytes are appended at the end and consumed from the front. */
module Buffers {
  import opened ByteStrings

  /** Four bytes, most significant first. */
  function BigEndian32(n: u32): (s: Bytes)
    ensures |s| == 4
  {
    [n / 0x100_0000, n / 0x1_0000 % 0x100, n / 0x100 % 0x100, n % 0x100]
  }

  function FromBigEndian32(s: Bytes): u32
    requires |s| >= 4
  {
    var a: int, b: int, c: int, d: int := s[0], s[1], s[2], s[3];
    a * 0x100_0000 + b * 0x1_0000 + c * 0x100 + d
  }

  lemma BigEndianRoundTrip(n: u32, tail: Bytes)
    ensures FromBigEndian32(BigEndian32(n) + tail) == n
  {
    assert n / 0x1_0000 == n / 0x100_0000 * 0x100 + n / 0x1_0000 % 0x100;
    assert n / 0x100 == n / 0x1_0000 * 0x100 + n / 0x100 % 0x100;
  }

  lemma BigEndianUnique(s: Bytes)
    requires |s| >= 4
    ensures BigEndian32(FromBigEndian32(s)) == s[..4]
  {
    var a: int, b: int, c: int, d: int := s[0], s[1], s[2], s[3];
    var n: int := FromBigEndian32(s);
    assert n / 0x100_0000 == a;
    assert n / 0x1_0000 == a * 0x100 + b;
    assert n / 0x100 == a * 0x1_0000 + b * 0x100 + c;
  }

  class ByteBuffer {
    var bytes: Bytes

    constructor (bytes: Bytes)
      ensures this.bytes == bytes
    {
      this.bytes := bytes;
    }

    method PutU8(b: byte)
      modifies this
      ensures bytes == old(bytes) + [b]
    {
      bytes := bytes + [b];
    }

    method PutU32(n: u32)
      modifies this
      ensures bytes == old(bytes) + BigEndian32(n)
    {
      bytes := bytes + BigEndian32(n);
    }

    method Extend(b: Bytes)
      modifies this
      ensures bytes == old(bytes) + b
    {
      bytes := bytes + b;
    }

    method GetU8() returns (b: byte)
      requires bytes != []
      modifies this
      ensures b == old(bytes)[0] && bytes == old(bytes)[1..]
    {
      b := bytes[0];
      bytes := bytes[1..];
    }

    method GetU32() returns (n: u32)
      requires |bytes| >= 4
      modifies this
      ensures n == FromBigEndian32(old(bytes)) && bytes == old(bytes)[4..]
    {
      n := FromBigEndian32(bytes);
      bytes := bytes[4..];
    }

    method SplitTo(n: nat) returns (front: Bytes)
      requires n <= |bytes|
      modifies this
      ensures front == old(bytes)[..n] && bytes == old(bytes)[n..]
    {
      front := bytes[..n];
      bytes := bytes[n..];
    }
  }
}
