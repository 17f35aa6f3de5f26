/**
 SHA-256 as FIPS 180-4 defines it: padding (section 5.1.1), parsing (5.2.1), the
 functions (4.1.2) and the hash computation (6.2.2), all by recursion on the message,
 the schedule index and the round number.  Nothing here shares a buffer.
 */
module Fips180 {
  import opened Arithmetic

  type Bytes = seq<bv8>

  /** The constants of section 4.2.2, in rows of eight. */
  const K_0: seq<bv32> :=
    [0x428a2f98, 0x71374491, 0xb5c0fbcf, 0xe9b5dba5, 0x3956c25b, 0x59f111f1, 0x923f82a4, 0xab1c5ed5]
  const K_8: seq<bv32> :=
    [0xd807aa98, 0x12835b01, 0x243185be, 0x550c7dc3, 0x72be5d74, 0x80deb1fe, 0x9bdc06a7, 0xc19bf174]
  const K_16: seq<bv32> :=
    [0xe49b69c1, 0xefbe4786, 0x0fc19dc6, 0x240ca1cc, 0x2de92c6f, 0x4a7484aa, 0x5cb0a9dc, 0x76f988da]
  const K_24: seq<bv32> :=
    [0x983e5152, 0xa831c66d, 0xb00327c8, 0xbf597fc7, 0xc6e00bf3, 0xd5a79147, 0x06ca6351, 0x14292967]
  const K_32: seq<bv32> :=
    [0x27b70a85, 0x2e1b2138, 0x4d2c6dfc, 0x53380d13, 0x650a7354, 0x766a0abb, 0x81c2c92e, 0x92722c85]
  const K_40: seq<bv32> :=
    [0xa2bfe8a1, 0xa81a664b, 0xc24b8b70, 0xc76c51a3, 0xd192e819, 0xd6990624, 0xf40e3585, 0x106aa070]
  const K_48: seq<bv32> :=
    [0x19a4c116, 0x1e376c08, 0x2748774c, 0x34b0bcb5, 0x391c0cb3, 0x4ed8aa4a, 0x5b9cca4f, 0x682e6ff3]
  const K_56: seq<bv32> :=
    [0x748f82ee, 0x78a5636f, 0x84c87814, 0x8cc70208, 0x90befffa, 0xa4506ceb, 0xbef9a3f7, 0xc67178f2]

  const K: seq<bv32> := K_0 + K_8 + K_16 + K_24 + K_32 + K_40 + K_48 + K_56

  // ----- section 4.1.2 -----

  /** Addition modulo 2^32. */
  function Add(x: bv32, y: bv32): bv32 { x + y }

  function Ch(x: bv32, y: bv32, z: bv32): bv32 { (x & y) ^ (!x & z) }

  function Maj(x: bv32, y: bv32, z: bv32): bv32 { (x & y) ^ (x & z) ^ (y & z) }

  function BigSigma0(x: bv32): bv32 { ((x >> 2) | (x << 30)) ^ ((x >> 13) | (x << 19)) ^ ((x >> 22) | (x << 10)) }

  function BigSigma1(x: bv32): bv32 { ((x >> 6) | (x << 26)) ^ ((x >> 11) | (x << 21)) ^ ((x >> 25) | (x << 7)) }

  function SmallSigma0(x: bv32): bv32 { ((x >> 7) | (x << 25)) ^ ((x >> 18) | (x << 14)) ^ (x >> 3) }

  function SmallSigma1(x: bv32): bv32 { ((x >> 17) | (x << 15)) ^ ((x >> 19) | (x << 13)) ^ (x >> 10) }

  /** Section 3.2: shift-and-or is the circular right shift. */
  lemma SigmasRotate(x: bv32)
    ensures BigSigma0(x) == x.RotateRight(2) ^ x.RotateRight(13) ^ x.RotateRight(22)
    ensures BigSigma1(x) == x.RotateRight(6) ^ x.RotateRight(11) ^ x.RotateRight(25)
    ensures SmallSigma0(x) == x.RotateRight(7) ^ x.RotateRight(18) ^ (x >> 3)
    ensures SmallSigma1(x) == x.RotateRight(17) ^ x.RotateRight(19) ^ (x >> 10)
  {
  }

  /** Every bit of `Ch` comes from `y` where `x` is one and from `z` where it is zero. */
  lemma ChChooses(x: bv32, y: bv32, z: bv32)
    ensures Ch(x, y, z) & x == y & x
    ensures Ch(x, y, z) & !x == z & !x
  {
  }

  /** Where two of its words have the same bit, `Maj` has that bit. */
  lemma MajAgrees(x: bv32, y: bv32, z: bv32)
    ensures Maj(x, y, z) & !(x ^ y) == x & !(x ^ y)
  {
  }

  /** The order of the words does not matter, so this is so of any two of the three. */
  lemma MajIsSymmetric(x: bv32, y: bv32, z: bv32)
    ensures Maj(x, y, z) == Maj(y, x, z) == Maj(x, z, y)
  {
  }

  // ----- section 5.1.1: padding -----

  /** The least number of zero bytes that puts the length field at the end of a block. */
  function ZeroCount(len: nat): (k: nat)
    ensures (len + 1 + k) % 64 == 56 && k < 64
  {
    if len % 64 <= 55 then 55 - len % 64 else 119 - len % 64
  }

  function Power256(k: nat): (p: nat)
    ensures p > 0
  {
    if k == 0 then 1 else 256 * Power256(k - 1)
  }

  lemma NextByte(b: bv8)
    ensures b as nat < 256 && (b != 0xFF ==> (b + 1) as nat == b as nat + 1)
    ensures b == 0xFF <==> b as nat == 255
  {
  }

  lemma SameByte(x: bv8, y: bv8)
    requires x as nat == y as nat
    ensures x == y
  {
    assert (x as nat) as bv8 == x && (y as nat) as bv8 == y;
  }

  /** The byte with a given value. */
  function Byte(x: nat): (b: bv8)
    requires x < 256
    ensures b as nat == x
  {
    if x == 0 then 0 else
      var b := Byte(x - 1);
      NextByte(b);
      b + 1
  }

  /** Byte `k` of the number, counted from the least significant one. */
  function ByteOf(n: nat, k: nat): bv8 { Byte((n / Power256(k)) % 256) }

  /** The big-endian notation of `n` in `k` bytes. */
  function BigEndian(n: nat, k: nat): (b: Bytes)
    ensures |b| == k
  {
    seq(k, (i: nat) requires i < k => ByteOf(n, k - 1 - i))
  }

  function Zeros(k: nat): (z: Bytes)
    ensures |z| == k && forall i | 0 <= i < k :: z[i] == 0
  {
    seq(k, _ => 0)
  }

  function Pad(m: Bytes): (p: Bytes)
    ensures |p| == |m| + 9 + ZeroCount(|m|)
  {
    m + [0x80] + Zeros(ZeroCount(|m|)) + BigEndian(8 * |m|, 8)
  }

  // ----- section 6.2.2: hash computation -----

  datatype Regs = Regs(a: bv32, b: bv32, c: bv32, d: bv32, e: bv32, f: bv32, g: bv32, h: bv32)

  const InitialHash: Regs :=
    Regs(0x6a09e667, 0xbb67ae85, 0x3c6ef372, 0xa54ff53a, 0x510e527f, 0x9b05688c, 0x1f83d9ab, 0x5be0cd19)

  /** The 32-bit word whose bytes, most significant first, start at `j`. */
  function WordAt(b: Bytes, j: nat): bv32
    requires j + 4 <= |b|
  {
    ((b[j] as bv32) << 24) | ((b[j + 1] as bv32) << 16) | ((b[j + 2] as bv32) << 8) | (b[j + 3] as bv32)
  }

  function Expand(w2: bv32, w7: bv32, w15: bv32, w16: bv32): bv32 {
    SmallSigma1(w2) + w7 + SmallSigma0(w15) + w16
  }

  /** The message schedule of the block that starts at `offset`. */
  function Schedule(msg: Bytes, offset: nat, t: nat): bv32
    requires offset + 64 <= |msg|
  {
    if t < 16 then WordAt(msg, offset + 4 * t)
    else Expand(Schedule(msg, offset, t - 2), Schedule(msg, offset, t - 7),
                Schedule(msg, offset, t - 15), Schedule(msg, offset, t - 16))
  }

  function T1(h: bv32, e: bv32, f: bv32, g: bv32, k: bv32, w: bv32): bv32 { h + BigSigma1(e) + Ch(e, f, g) + k + w }

  function T2(a: bv32, b: bv32, c: bv32): bv32 { BigSigma0(a) + Maj(a, b, c) }

  function Round(r: Regs, k: bv32, w: bv32): Regs {
    var t1 := T1(r.h, r.e, r.f, r.g, k, w);
    var t2 := T2(r.a, r.b, r.c);
    Regs(Add(t1, t2), r.a, r.b, r.c, Add(r.d, t1), r.e, r.f, r.g)
  }

  function Rounds(r: Regs, msg: Bytes, offset: nat, t: nat): Regs
    requires offset + 64 <= |msg| && t <= 64
  {
    if t == 0 then r else Round(Rounds(r, msg, offset, t - 1), K[t - 1], Schedule(msg, offset, t - 1))
  }

  function Plus(x: Regs, y: Regs): Regs {
    Regs(Add(x.a, y.a), Add(x.b, y.b), Add(x.c, y.c), Add(x.d, y.d),
         Add(x.e, y.e), Add(x.f, y.f), Add(x.g, y.g), Add(x.h, y.h))
  }

  function Compress(h: Regs, msg: Bytes, offset: nat): Regs
    requires offset + 64 <= |msg|
  {
    Plus(h, Rounds(h, msg, offset, 64))
  }

  /** The hash value after the first `i` blocks. */
  function HashValue(msg: Bytes, i: nat): Regs
    requires 64 * i <= |msg|
  {
    if i == 0 then InitialHash else Compress(HashValue(msg, i - 1), msg, 64 * (i - 1))
  }

  function WordBytes(w: bv32): (b: Bytes)
    ensures |b| == 4
  {
    [((w >> 24) & 0xFF) as bv8, ((w >> 16) & 0xFF) as bv8, ((w >> 8) & 0xFF) as bv8, (w & 0xFF) as bv8]
  }

  function Digest(h: Regs): (d: Bytes)
    ensures |d| == 32
  {
    WordBytes(h.a) + WordBytes(h.b) + WordBytes(h.c) + WordBytes(h.d)
    + WordBytes(h.e) + WordBytes(h.f) + WordBytes(h.g) + WordBytes(h.h)
  }

  function Sha256(m: Bytes): (d: Bytes)
    ensures |d| == 32
  {
    Digest(HashValue(Pad(m), |Pad(m)| / 64))
  }

  // ----- properties of the padding -----

  /** The padded length is the least multiple of 64 that leaves room for nine more bytes. */
  lemma PadLength(m: Bytes)
    ensures |Pad(m)| % 64 == 0
    ensures |m| + 9 <= |Pad(m)| < |m| + 9 + 64
  {
  }

  /** What follows the message in its padding, before the length field. */
  lemma PadMark(m: Bytes, i: int)
    ensures Pad(m)[|m|] == 0x80
    ensures |m| < i < |Pad(m)| - 8 ==> Pad(m)[i] == 0
  {
  }

  /** The message can be read back from its padding: no two messages pad to the same bytes. */
  lemma PadInjective(m1: Bytes, m2: Bytes)
    requires Pad(m1) == Pad(m2)
    ensures m1 == m2
  {
    PadMark(m1, |m2|);
    PadMark(m2, |m1|);
    assert Pad(m1)[..|m1|] == m1 && Pad(m2)[..|m2|] == m2;
  }

  // ----- big-endian notation -----

  function FromBigEndian(b: Bytes): nat {
    if b == [] then 0 else 256 * FromBigEndian(b[..|b| - 1]) + b[|b| - 1] as nat
  }

  lemma {:induction false} DivPower(n: nat, k: nat)
    ensures n / Power256(k + 1) == (n / 256) / Power256(k)
  {
    var p := Power256(k);
    var q, r := n / 256, n % 256;
    var q', r' := q / p, q % p;
    assert n == q' * (256 * p) + (256 * r' + r) by {
      assert q == q' * p + r';
      assert n == 256 * (q' * p + r') + r;
      assert 256 * (q' * p) == q' * (256 * p);
    }
    DivModUnique(256 * p, n, q', 256 * r' + r);
  }

  lemma {:induction false} ByteOfShift(n: nat, k: nat)
    ensures ByteOf(n, k + 1) == ByteOf(n / 256, k)
  {
    DivPower(n, k);
  }

  lemma {:induction false} BigEndianFront(n: nat, k: nat)
    ensures BigEndian(n, k + 1)[..k] == BigEndian(n / 256, k)
  {
    var a, b := BigEndian(n, k + 1)[..k], BigEndian(n / 256, k);
    forall i | 0 <= i < k ensures a[i] == b[i] {
      ByteOfShift(n, k - 1 - i);
    }
  }

  lemma LastByte(n: nat)
    ensures ByteOf(n, 0) as nat == n % 256
  {
    assert Power256(0) == 1 && n / 1 == n;
  }

  /** Reading the big-endian notation back gives the number, when it fits. */
  lemma {:induction false} BigEndianRoundTrip(n: nat, k: nat)
    requires n < Power256(k)
    ensures FromBigEndian(BigEndian(n, k)) == n
  {
    if k > 0 {
      BigEndianFront(n, k - 1);
      BigEndianRoundTrip(n / 256, k - 1);
      LastByte(n);
      assert BigEndian(n, k)[k - 1] == ByteOf(n, 0);
    }
  }

  lemma BytesOfJoin(b0: bv8, b1: bv8, b2: bv8, b3: bv8)
    ensures var w := ((b0 as bv32) << 24) | ((b1 as bv32) << 16) | ((b2 as bv32) << 8) | (b3 as bv32);
            && ((w >> 24) & 0xFF) as bv8 == b0 && ((w >> 16) & 0xFF) as bv8 == b1
            && ((w >> 8) & 0xFF) as bv8 == b2 && (w & 0xFF) as bv8 == b3
  {
  }

  /** Splitting a word into bytes and joining the bytes are inverse. */
  lemma WordBytesInverse(w: bv32, b: Bytes)
    requires |b| == 4
    ensures WordAt(WordBytes(w), 0) == w
    ensures WordBytes(WordAt(b, 0)) == b
  {
    BytesOfJoin(b[0], b[1], b[2], b[3]);
  }
}
