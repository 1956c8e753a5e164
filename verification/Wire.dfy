/** Bytes on the wire: the fixed-width integers of the protocol structures, their
    little-endian layout, and the reader that the packet parsers advance. */
module Wire {
  import opened Options

  type byte = x: int | 0 <= x < 0x100
  type u16 = x: int | 0 <= x < 0x1_0000
  type u32 = x: int | 0 <= x < 0x1_0000_0000

  type Bytes = seq<byte>

  /** A Go array of type [16]byte: random numbers, GUIDs, cipher blocks and cipher keys. */
  type Bytes16 = b: Bytes | |b| == 16 witness seq(16, _ => 0)

  /** The output of HMAC-SHA1. */
  type Bytes20 = b: Bytes | |b| == 20 witness seq(20, _ => 0)

  function Zeros(n: nat): (r: Bytes)
    ensures |r| == n
  {
    seq(n, _ => 0)
  }

  function LE16(x: u16): (r: Bytes)
    ensures |r| == 2
  {
    [x % 0x100, x / 0x100]
  }

  function FromLE16(b: Bytes): u16
    requires |b| == 2
  {
    b[0] as int + 0x100 * b[1] as int
  }

  function LE32(x: u32): (r: Bytes)
    ensures |r| == 4
  {
    [x % 0x100, x / 0x100 % 0x100, x / 0x100 / 0x100 % 0x100, x / 0x100 / 0x100 / 0x100]
  }

  function FromLE32(b: Bytes): u32
    requires |b| == 4
  {
    b[0] as int + 0x100 * b[1] as int + 0x1_0000 * b[2] as int + 0x100_0000 * b[3] as int
  }

  lemma LE16RoundTrip(x: u16)
    ensures FromLE16(LE16(x)) == x
  {
  }

  lemma LE32RoundTrip(x: u32)
    ensures FromLE32(LE32(x)) == x
  {
  }

  lemma LE32Injective(x: u32, y: u32)
    requires LE32(x) == LE32(y)
    ensures x == y
  {
  }

  /** Little-endian: the byte of weight 1 comes first. */
  lemma LittleEndian(a: byte, b: byte, c: byte, d: byte)
    ensures LE16(a + 0x100 * b) == [a, b] && FromLE16([a, b]) == a + 0x100 * b
    ensures var x := a + 0x100 * b + 0x1_0000 * c + 0x100_0000 * d;
            LE32(x) == [a, b, c, d] && FromLE32([a, b, c, d]) == x
  {
    var x := a + 0x100 * b + 0x1_0000 * c + 0x100_0000 * d;
    assert x / 0x100 == b + 0x100 * c + 0x1_0000 * d && x % 0x100 == a;
    assert x / 0x100 / 0x100 == c + 0x100 * d;
  }

  lemma TailSlice(b: Bytes, n: nat, i: nat, j: nat)
    requires n <= i <= j <= |b|
    ensures b[i..j] == b[n..][i - n..j - n]
  {
    forall k | 0 <= k < j - i
      ensures b[i..j][k] == b[n..][i - n..j - n][k]
    {
    }
  }

  lemma SliceOfSlice(b: Bytes, i: nat, j: nat, n: nat)
    requires i <= i + n <= j <= |b|
    ensures b[i..j][..n] == b[i..i + n]
  {
  }

  /** A read of n bytes from a source: they are taken, or it fails and leaves nothing behind. */
  function Taken(b: Bytes, n: nat): (Option<Bytes>, Bytes) {
    if n <= |b| then (Some(b[..n]), b[n..]) else (None, [])
  }

  /** The io.Reader that the parsers share, as `binary.Read` of a value of n bytes uses it. */
  class Reader {
    var rest: Bytes

    constructor (b: Bytes)
      ensures rest == b
    {
      rest := b;
    }

    method Read(n: nat) returns (r: Option<Bytes>)
      modifies this
      ensures (r, rest) == Taken(old(rest), n)
    {
      var (taken, left) := Taken(rest, n);
      r, rest := taken, left;
    }
  }
}
