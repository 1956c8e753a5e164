/** The cryptographic layer of the RMCP+ code: HMAC and the block cipher are parameters,
    the chaining, padding, key slicing and size checks around them are modelled as written. */
module Crypto {
  import opened Wire

  /** HMAC-SHA1 (key, message) and one AES-128 block operation in each direction (key, block). */
  datatype Suite = Suite(
    hmac: (Bytes, Bytes) -> Bytes20,
    encipher: (Bytes16, Bytes16) -> Bytes16,
    decipher: (Bytes16, Bytes16) -> Bytes16)
  {
    /** Deciphering undoes enciphering: what a block cipher is. */
    ghost predicate Invertible() {
      forall k: Bytes16, b: Bytes16 :: decipher(k, encipher(k, b)) == b
    }

    /** Two different messages with one authentication code under the same key. */
    ghost predicate Collision(key: Bytes, m: Bytes, m': Bytes) {
      m != m' && hmac(key, m) == hmac(key, m')
    }
  }

  /** What can come out of the cipher wrappers: an error the handler returns, or a Go run-time
      panic (slice bounds, output smaller than input). */
  datatype Sealed = Data(bytes: Bytes) | BadSize | Panic

  // ---------- exclusive or ----------

  function Pow2(n: nat): (r: nat)
    ensures r >= 1
  {
    if n == 0 then 1 else 2 * Pow2(n - 1)
  }

  /** Bitwise exclusive or of two n-bit numbers. */
  function Xor(a: nat, b: nat, n: nat): (r: nat)
    ensures r < Pow2(n)
    decreases n
  {
    if n == 0 then 0
    else (a % 2 + b % 2) % 2 + 2 * Xor(a / 2, b / 2, n - 1)
  }

  /** Exclusive or works on the lowest bits and on the rest separately. */
  lemma XorBits(p: nat, a: nat, q: nat, b: nat, n: nat)
    requires p < 2 && q < 2 && n > 0
    ensures Xor(p + 2 * a, q + 2 * b, n) == (p + q) % 2 + 2 * Xor(a, b, n - 1)
  {
    assert (p + 2 * a) % 2 == p && (p + 2 * a) / 2 == a;
    assert (q + 2 * b) % 2 == q && (q + 2 * b) / 2 == b;
  }

  lemma Pow2Of8()
    ensures Pow2(8) == 0x100
  {
  }

  function XorByte(a: byte, b: byte): byte {
    Pow2Of8();
    Xor(a, b, 8)
  }

  function XorBlock(a: Bytes16, b: Bytes16): Bytes16 {
    seq(16, i requires 0 <= i < 16 => XorByte(a[i], b[i]))
  }

  // ---------- exclusive or, bit by bit ----------

  /** Bit k of a number. */
  function Bit(x: nat, k: nat): (r: nat)
    ensures r < 2
    decreases k
  {
    if k == 0 then x % 2 else Bit(x / 2, k - 1)
  }

  /** Every bit of x is the sum modulo 2 of the bits of a and b in its place. */
  ghost predicate BitSum(x: Bytes16, a: Bytes16, b: Bytes16) {
    forall j, k :: 0 <= j < 16 && 0 <= k < 8 ==> Bit(x[j], k) == (Bit(a[j], k) + Bit(b[j], k)) % 2
  }

  lemma {:induction false} XorBit(a: nat, b: nat, n: nat, k: nat)
    requires k < n
    ensures Bit(Xor(a, b, n), k) == (Bit(a, k) + Bit(b, k)) % 2
    decreases k
  {
    var p, q := a % 2, b % 2;
    XorBits(p, a / 2, q, b / 2, n);
    hide Xor;
    var rest := Xor(a / 2, b / 2, n - 1);
    assert a == p + 2 * (a / 2) && b == q + 2 * (b / 2);
    HalvesOf((p + q) % 2, rest);
    if k > 0 {
      XorBit(a / 2, b / 2, n - 1, k - 1);
    }
  }

  lemma HalvesOf(bit: nat, q: nat)
    requires bit < 2
    ensures (bit + 2 * q) % 2 == bit && (bit + 2 * q) / 2 == q
  {
  }

  /** Numbers below 2 to the n are equal when their lowest n bits are. */
  lemma {:induction false} BitsDetermine(x: nat, y: nat, n: nat)
    requires x < Pow2(n) && y < Pow2(n)
    requires forall k :: 0 <= k < n ==> Bit(x, k) == Bit(y, k)
    ensures x == y
    decreases n
  {
    if n > 0 {
      assert Bit(x, 0) == Bit(y, 0);
      forall k | 0 <= k < n - 1
        ensures Bit(x / 2, k) == Bit(y / 2, k)
      {
        assert Bit(x, k + 1) == Bit(y, k + 1);
      }
      BitsDetermine(x / 2, y / 2, n - 1);
    }
  }

  lemma BitCancels(p: nat, q: nat)
    requires p < 2 && q < 2
    ensures ((p + q) % 2 + q) % 2 == p
  {
  }

  lemma XorCancels(a: nat, b: nat, n: nat)
    requires a < Pow2(n)
    ensures Xor(Xor(a, b, n), b, n) == a
  {
    hide Xor, Bit, Pow2;
    var x := Xor(a, b, n);
    forall k | 0 <= k < n
      ensures Bit(Xor(x, b, n), k) == Bit(a, k)
    {
      XorBit(a, b, n, k);
      XorBit(x, b, n, k);
      BitCancels(Bit(a, k), Bit(b, k));
    }
    BitsDetermine(Xor(x, b, n), a, n);
  }

  lemma XorBlockCancels(a: Bytes16, b: Bytes16)
    ensures XorBlock(XorBlock(a, b), b) == a
  {
    forall i | 0 <= i < 16
      ensures XorBlock(XorBlock(a, b), b)[i] == a[i]
    {
      Pow2Of8();
      XorCancels(a[i], b[i], 8);
    }
  }

  /** The exclusive or of two blocks is the one block with those bits. */
  lemma BitSumIff(x: Bytes16, a: Bytes16, b: Bytes16)
    ensures BitSum(x, a, b) <==> x == XorBlock(a, b)
  {
    var y := XorBlock(a, b);
    forall j, k | 0 <= j < 16 && 0 <= k < 8
      ensures Bit(y[j], k) == (Bit(a[j], k) + Bit(b[j], k)) % 2
    {
      XorBit(a[j], b[j], 8, k);
    }
    if BitSum(x, a, b) {
      forall j | 0 <= j < 16
        ensures x[j] == y[j]
      {
        SameByte(x[j], y[j]);
      }
    }
  }

  lemma SameByte(x: byte, y: byte)
    requires forall k :: 0 <= k < 8 ==> Bit(x, k) == Bit(y, k)
    ensures x == y
  {
    Pow2Of8();
    BitsDetermine(x, y, 8);
  }

  // ---------- cipher block chaining ----------

  function CbcEncrypt(c: Suite, key: Bytes16, prev: Bytes16, plain: Bytes): (r: Bytes)
    requires |plain| % 16 == 0
    ensures |r| == |plain|
    decreases |plain|
  {
    if plain == [] then []
    else
      var block := c.encipher(key, XorBlock(plain[..16], prev));
      block + CbcEncrypt(c, key, block, plain[16..])
  }

  function CbcDecrypt(c: Suite, key: Bytes16, prev: Bytes16, ciphered: Bytes): (r: Bytes)
    requires |ciphered| % 16 == 0
    ensures |r| == |ciphered|
    decreases |ciphered|
  {
    if ciphered == [] then []
    else XorBlock(c.decipher(key, ciphered[..16]), prev) + CbcDecrypt(c, key, ciphered[..16], ciphered[16..])
  }

  lemma {:induction false} CbcRoundTrip(c: Suite, key: Bytes16, prev: Bytes16, plain: Bytes)
    requires c.Invertible()
    requires |plain| % 16 == 0
    ensures CbcDecrypt(c, key, prev, CbcEncrypt(c, key, prev, plain)) == plain
    decreases |plain|
  {
    if plain != [] {
      var p: Bytes16 := plain[..16];
      var block: Bytes := c.encipher(key, XorBlock(p, prev));
      var rest: Bytes := CbcEncrypt(c, key, block, plain[16..]);
      assert (block + rest)[..16] == block && (block + rest)[16..] == rest;
      CbcRoundTrip(c, key, block, plain[16..]);
      XorBlockCancels(p, prev);
      assert plain == p + plain[16..];
    }
  }

  function BlockAt(b: Bytes, i: nat): Bytes16
    requires 16 * i + 16 <= |b|
  {
    b[16 * i..16 * i + 16]
  }

  /** Block i + 1 of a sealed message, whose block 0 is the vector: the cipher of the plain block added bit
      by bit to the cipher block before it. */
  ghost predicate ChainedAt(c: Suite, key: Bytes16, plain: Bytes, sealed: Bytes, i: nat)
    requires 16 * i + 16 <= |plain| && |sealed| == |plain| + 16
  {
    forall x: Bytes16 :: BitSum(x, BlockAt(plain, i), BlockAt(sealed, i)) ==>
      BlockAt(sealed, i + 1) == c.encipher(key, x)
  }

  /** The other direction: plain block i is the deciphered block added to the cipher block before it. */
  ghost predicate UnchainedAt(c: Suite, key: Bytes16, plain: Bytes, sealed: Bytes, i: nat)
    requires 16 * i + 16 <= |plain| && |sealed| == |plain| + 16
  {
    BitSum(BlockAt(plain, i), c.decipher(key, BlockAt(sealed, i + 1)), BlockAt(sealed, i))
  }

  lemma BlockOfTail(b: Bytes, i: nat)
    requires i > 0 && 16 * i + 16 <= |b|
    ensures BlockAt(b, i) == BlockAt(b[16..], i - 1)
  {
    TailSlice(b, 16, 16 * i, 16 * i + 16);
  }

  lemma FrontBlocks(iv: Bytes16, r: Bytes)
    requires |r| >= 16
    ensures BlockAt(iv + r, 0) == iv && BlockAt(iv + r, 1) == r[..16] && (iv + r)[16..] == r[..16] + r[16..]
  {
  }

  lemma FirstBlock(b: Bytes)
    requires |b| >= 16
    ensures BlockAt(b, 0) == b[..16]
  {
  }

  /** Encryption chains every block. */
  lemma {:induction false} EncryptChains(c: Suite, key: Bytes16, iv: Bytes16, plain: Bytes, i: nat)
    requires |plain| % 16 == 0 && 16 * i + 16 <= |plain|
    ensures ChainedAt(c, key, plain, iv + CbcEncrypt(c, key, iv, plain), i)
    decreases i
  {
    hide BitSum, XorBlock, BlockAt;
    var p, rest := plain[..16], plain[16..];
    var block := c.encipher(key, XorBlock(p, iv));
    var r := CbcEncrypt(c, key, iv, plain);
    var r' := CbcEncrypt(c, key, block, rest);
    var sealed := iv + r;
    assert r == block + r' && r[..16] == block && r[16..] == r';
    FrontBlocks(iv, r);
    FirstBlock(plain);
    if i == 0 {
      forall x: Bytes16 | BitSum(x, BlockAt(plain, 0), BlockAt(sealed, 0))
        ensures BlockAt(sealed, 1) == c.encipher(key, x)
      {
        BitSumIff(x, p, iv);
      }
    } else {
      EncryptChains(c, key, block, rest, i - 1);
      BlockOfTail(plain, i);
      BlockOfTail(sealed, i);
      BlockOfTail(sealed, i + 1);
    }
  }

  /** Decryption unchains every block. */
  lemma {:induction false} DecryptUnchains(c: Suite, key: Bytes16, iv: Bytes16, ciphered: Bytes, i: nat)
    requires |ciphered| % 16 == 0 && 16 * i + 16 <= |ciphered|
    ensures UnchainedAt(c, key, CbcDecrypt(c, key, iv, ciphered), iv + ciphered, i)
    decreases i
  {
    hide BitSum, XorBlock, BlockAt;
    var block: Bytes16, rest := ciphered[..16], ciphered[16..];
    var first := XorBlock(c.decipher(key, block), iv);
    var plain := CbcDecrypt(c, key, iv, ciphered);
    var plain' := CbcDecrypt(c, key, block, rest);
    assert plain == first + plain' && plain[..16] == first && plain[16..] == plain';
    FrontBlocks(iv, ciphered);
    FirstBlock(plain);
    if i == 0 {
      BitSumIff(first, c.decipher(key, block), iv);
    } else {
      DecryptUnchains(c, key, block, rest, i - 1);
      assert (iv + ciphered)[16..] == block + rest;
      BlockOfTail(plain, i);
      BlockOfTail(iv + ciphered, i);
      BlockOfTail(iv + ciphered, i + 1);
    }
  }

  // ---------- confidentiality pad ----------

  /** How many bytes the pad adds: up to the next block boundary, a whole block when already there. */
  function PadSize(n: nat): (p: nat)
    ensures 1 <= p <= 16 && (n + p) % 16 == 0
  {
    16 - n % 16
  }

  /** The pad of section 13.29 of IPMI v2.0: 1, 2, 3, ... and last the number of bytes before it. */
  function Pad(n: nat): (r: Bytes)
    ensures |r| == PadSize(n)
  {
    var p := PadSize(n);
    seq(p, i requires 0 <= i < p => if i == p - 1 then p - 1 else i + 1)
  }

  method PadPKCS7(data: Bytes) returns (r: Bytes)
    ensures r == data + Pad(|data|)
    ensures |r| % 16 == 0 && 1 <= |r| - |data| <= 16
    ensures r[..|data|] == data && r[|r| - 1] + 1 == |r| - |data|
    ensures forall i :: |data| <= i < |r| - 1 ==> r[i] == i - |data| + 1
  {
    var padSize := 16 - |data| % 16;
    var pad := new byte[padSize];
    for i := 0 to padSize
      invariant forall j :: 0 <= j < i ==> pad[j] == j + 1
    {
      pad[i] := i + 1;
    }
    pad[padSize - 1] := padSize - 1;
    assert pad[..] == Pad(|data|);
    r := data + pad[..];
  }

  // ---------- the wrappers ----------

  /** An initialisation vector, then the padded message chained under it. */
  function SealUnder(c: Suite, key: Bytes16, iv: Bytes16, plain: Bytes): (r: Bytes)
    ensures |r| == 16 + |plain| + PadSize(|plain|)
  {
    iv + CbcEncrypt(c, key, iv, plain + Pad(|plain|))
  }

  /** The byte at position j of a message padded to whole blocks, as section 13.29 of IPMI v2.0 has it. */
  function PaddedByte(plain: Bytes, j: nat): byte
    requires j < (|plain| / 16 + 1) * 16
  {
    var end := (|plain| / 16 + 1) * 16;
    if j < |plain| then plain[j] else if j < end - 1 then j - |plain| + 1 else end - 1 - |plain|
  }

  /** A sealed message as a console makes it: the vector, then the chained blocks of the padded message. */
  ghost predicate IsSealing(c: Suite, key: Bytes16, iv: Bytes16, plain: Bytes, sealed: Bytes) {
    var padded := seq((|plain| / 16 + 1) * 16, j requires 0 <= j < (|plain| / 16 + 1) * 16 => PaddedByte(plain, j));
    && |sealed| == |padded| + 16 && sealed[..16] == iv
    && forall i :: 0 <= i <= |plain| / 16 ==> ChainedAt(c, key, padded, sealed, i)
  }

  lemma PaddedBytes(plain: Bytes)
    ensures |plain + Pad(|plain|)| == (|plain| / 16 + 1) * 16
    ensures forall j :: 0 <= j < (|plain| / 16 + 1) * 16 ==> (plain + Pad(|plain|))[j] == PaddedByte(plain, j)
  {
    assert |plain| == 16 * (|plain| / 16) + |plain| % 16;
  }

  /** SealUnder makes the one sealed message that a console may send. */
  lemma SealingIff(c: Suite, key: Bytes16, iv: Bytes16, plain: Bytes, sealed: Bytes)
    ensures IsSealing(c, key, iv, plain, sealed) <==> sealed == SealUnder(c, key, iv, plain)
  {
    hide ChainedAt, CbcEncrypt, Pad;
    var n := (|plain| / 16 + 1) * 16;
    var padded := seq(n, j requires 0 <= j < n => PaddedByte(plain, j));
    PaddedBytes(plain);
    assert padded == plain + Pad(|plain|);
    var made := SealUnder(c, key, iv, plain);
    assert made[..16] == iv;
    forall i | 0 <= i <= |plain| / 16
      ensures ChainedAt(c, key, padded, made, i)
    {
      EncryptChains(c, key, iv, padded, i);
    }
    if IsSealing(c, key, iv, plain, sealed) {
      SameChain(c, key, padded, sealed, made, |plain| / 16 + 1);
      assert sealed[..n + 16] == sealed && made[..n + 16] == made;
    }
  }

  lemma {:induction false} SameChain(c: Suite, key: Bytes16, plain: Bytes, a: Bytes, b: Bytes, n: nat)
    requires 16 * n <= |plain| && |a| == |b| == |plain| + 16 && a[..16] == b[..16]
    requires forall i :: 0 <= i < n ==> ChainedAt(c, key, plain, a, i) && ChainedAt(c, key, plain, b, i)
    ensures a[..16 * n + 16] == b[..16 * n + 16]
    decreases n
  {
    hide BlockAt, BitSum, XorBlock;
    if n > 0 {
      SameChain(c, key, plain, a, b, n - 1);
      LastBlock(a, n - 1);
      LastBlock(b, n - 1);
      LastBlock(a, n);
      LastBlock(b, n);
      var x := XorBlock(BlockAt(plain, n - 1), BlockAt(a, n - 1));
      BitSumIff(x, BlockAt(plain, n - 1), BlockAt(a, n - 1));
      assert ChainedAt(c, key, plain, a, n - 1) && ChainedAt(c, key, plain, b, n - 1);
    }
  }

  lemma LastBlock(b: Bytes, i: nat)
    requires 16 * i + 16 <= |b|
    ensures b[..16 * i + 16] == b[..16 * i] + BlockAt(b, i)
    ensures BlockAt(b, i) == b[..16 * i + 16][16 * i..]
  {
  }

  /** encryptByCBCMode once the vector is drawn: the output slice holds one block, and chaining
      two panics. */
  function Encrypt(c: Suite, key: Bytes, iv: Bytes16, plain: Bytes): Sealed {
    if |key| < 16 then Panic
    else if |plain| + PadSize(|plain|) > 16 then Panic
    else Data(SealUnder(c, key[..16], iv, plain))
  }

  /** Cuts the pad off: the index is computed in a byte, and a cut past the end panics. */
  function Unpad(plain: Bytes): Sealed {
    if plain == [] then Panic
    else
      var padLength: int := plain[|plain| - 1];
      var end := (16 - (padLength + 1)) % 0x100;
      if end > |plain| then Panic else Data(plain[..end])
  }

  /** Unpadding cuts at |plain| % 16, wherever the message ended. */
  lemma UnpadOfPadded(plain: Bytes)
    ensures Unpad(plain + Pad(|plain|)) == Data(plain[..|plain| % 16])
  {
    var padded := plain + Pad(|plain|);
    PadEnds(|plain|);
    hide Pad;
    assert padded[|padded| - 1] == Pad(|plain|)[|Pad(|plain|)| - 1];
    assert padded[..|plain| % 16] == plain[..|plain| % 16];
  }

  /** The last byte of the pad gives the place of the cut. */
  lemma PadEnds(n: nat)
    ensures 16 - (Pad(n)[|Pad(n)| - 1] + 1) == n % 16
  {
  }

  /** Where the cut falls, by the last byte of any plain text: v up to 15 leaves 15 - v bytes; a greater one
      wraps around in a byte, to 271 - v bytes or a panic. */
  lemma UnpadByLastByte(plain: Bytes, v: byte)
    requires plain != [] && plain[|plain| - 1] == v
    ensures v <= 15 && 15 - v <= |plain| ==> Unpad(plain) == Data(plain[..15 - v])
    ensures v > 15 && 271 - v <= |plain| ==> Unpad(plain) == Data(plain[..271 - v])
    ensures (if v <= 15 then 15 - v else 271 - v) > |plain| ==> Unpad(plain) == Panic
  {
    assert (16 - (v + 1)) % 0x100 == if v <= 15 then 15 - v else 271 - v;
  }

  /** decryptByCBCMode on a received payload. */
  function Decrypt(c: Suite, key: Bytes, payload: Bytes): Sealed {
    if |payload| < 16 || |payload| % 16 != 0 then BadSize
    else if |key| < 16 then Panic
    else
      assert |payload[16..]| % 16 == 0;
      Unpad(CbcDecrypt(c, key[..16], payload[..16], payload[16..]))
  }

  lemma DecryptParts(c: Suite, key: Bytes, iv: Bytes16, ciphered: Bytes)
    requires |key| >= 16 && |ciphered| % 16 == 0
    ensures Decrypt(c, key, iv + ciphered) == Unpad(CbcDecrypt(c, key[..16], iv, ciphered))
  {
    hide CbcDecrypt, Unpad;
    var payload := iv + ciphered;
    assert payload[..16] == iv && payload[16..] == ciphered;
    assert |payload| == 16 + |ciphered|;
  }

  /** What the server makes of any correctly sealed message: its first |plain| % 16 bytes.
      It never panics on one. */
  lemma DecryptOfSealed(c: Suite, key: Bytes, iv: Bytes16, plain: Bytes)
    requires c.Invertible()
    requires |key| >= 16
    ensures Decrypt(c, key, SealUnder(c, key[..16], iv, plain)) == Data(plain[..|plain| % 16])
  {
    var padded := plain + Pad(|plain|);
    var k: Bytes16 := key[..16];
    var ciphered := CbcEncrypt(c, k, iv, padded);
    DecryptParts(c, key, iv, ciphered);
    CbcRoundTrip(c, k, iv, padded);
    UnpadOfPadded(plain);
  }

  /** What the server makes of any message sealed as a console seals it. */
  lemma SealingIsOpened(c: Suite, key: Bytes, iv: Bytes16, plain: Bytes, sealed: Bytes)
    requires c.Invertible() && |key| >= 16 && IsSealing(c, key[..16], iv, plain, sealed)
    ensures Decrypt(c, key, sealed) == Data(plain[..|plain| % 16])
  {
    SealingIff(c, key[..16], iv, plain, sealed);
    DecryptOfSealed(c, key, iv, plain);
  }

  /** The server reads back a sealed message exactly when it is at most 15 bytes long. */
  lemma DecryptReadsBackIff(c: Suite, key: Bytes, iv: Bytes16, plain: Bytes)
    requires c.Invertible()
    requires |key| >= 16
    ensures Decrypt(c, key, SealUnder(c, key[..16], iv, plain)) == Data(plain) <==> |plain| <= 15
  {
    DecryptOfSealed(c, key, iv, plain);
    if |plain| <= 15 {
      assert plain[..|plain| % 16] == plain;
    }
  }

  /** A message of 16 zero bytes, correctly sealed, is read as the empty message. */
  lemma SixteenBytesAreLost(c: Suite, key: Bytes, iv: Bytes16)
    requires c.Invertible()
    requires |key| >= 16
    ensures Decrypt(c, key, SealUnder(c, key[..16], iv, seq(16, _ => 0))) == Data([])
  {
    DecryptOfSealed(c, key, iv, seq(16, _ => 0));
  }

  /** Encrypt then decrypt is the identity for messages of at most 15 bytes; for all others, and
      for a key shorter than a block, encryption panics. */
  lemma EncryptThenDecrypt(c: Suite, key: Bytes, iv: Bytes16, plain: Bytes)
    requires c.Invertible()
    ensures Encrypt(c, key, iv, plain).Data? <==> |key| >= 16 && |plain| <= 15
    ensures Encrypt(c, key, iv, plain).Data? || Encrypt(c, key, iv, plain).Panic?
    ensures Encrypt(c, key, iv, plain).Data? ==>
              && |Encrypt(c, key, iv, plain).bytes| == 32
              && Decrypt(c, key, Encrypt(c, key, iv, plain).bytes) == Data(plain)
  {
    if |key| >= 16 {
      DecryptReadsBackIff(c, key, iv, plain);
    }
  }
}
