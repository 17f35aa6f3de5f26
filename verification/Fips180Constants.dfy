/**
 Where the constants of SHA-256 come from (FIPS 180-4, sections 4.2.2 and 5.3.3): the first
 32 bits of the fractional parts of the cube roots of the first 64 primes, and of the
 square roots of the first eight.
 */
module Fips180Constants {
  import opened Arithmetic
  import opened Fips180

  // ----- the first 64 primes -----

  ghost predicate IsPrime(n: nat) { n >= 2 && forall d: nat | 2 <= d < n :: n % d != 0 }

  const PRIMES_0: seq<nat> := [2, 3, 5, 7, 11, 13, 17, 19]
  const PRIMES_8: seq<nat> := [23, 29, 31, 37, 41, 43, 47, 53]
  const PRIMES_16: seq<nat> := [59, 61, 67, 71, 73, 79, 83, 89]
  const PRIMES_24: seq<nat> := [97, 101, 103, 107, 109, 113, 127, 131]
  const PRIMES_32: seq<nat> := [137, 139, 149, 151, 157, 163, 167, 173]
  const PRIMES_40: seq<nat> := [179, 181, 191, 193, 197, 199, 211, 223]
  const PRIMES_48: seq<nat> := [227, 229, 233, 239, 241, 251, 257, 263]
  const PRIMES_56: seq<nat> := [269, 271, 277, 281, 283, 293, 307, 311]

  const PRIMES: seq<nat> := PRIMES_0 + PRIMES_8 + PRIMES_16 + PRIMES_24 + PRIMES_32 + PRIMES_40 + PRIMES_48 + PRIMES_56

  /** No prime up to 17 divides `n`, unless it is `n` itself. */
  predicate Sieved(n: nat) {
    && (n % 2 != 0 || n == 2) && (n % 3 != 0 || n == 3) && (n % 5 != 0 || n == 5) && (n % 7 != 0 || n == 7)
    && (n % 11 != 0 || n == 11) && (n % 13 != 0 || n == 13) && (n % 17 != 0 || n == 17)
  }

  lemma {:induction false} PrimesAreSieved(n: nat)
    requires IsPrime(n)
    ensures Sieved(n)
  {
    assert n > 2 ==> n % 2 != 0;
    assert n > 3 ==> n % 3 != 0;
    assert n > 5 ==> n % 5 != 0;
    assert n > 7 ==> n % 7 != 0;
    assert n > 11 ==> n % 11 != 0;
    assert n > 13 ==> n % 13 != 0;
    assert n > 17 ==> n % 17 != 0;
  }

  /** A divisor of at most 17 is caught by the sieve. */
  lemma SmallDivisor(n: nat, d: nat, e: nat)
    requires 2 <= d <= 17 && 2 <= e && n == d * e
    ensures !Sieved(n)
  {
    if d == 2 { Multiple(n, 2, e); }
    if d == 3 { Multiple(n, 3, e); }
    if d == 4 { Multiple(n, 2, 2 * e); }
    if d == 5 { Multiple(n, 5, e); }
    if d == 6 { Multiple(n, 2, 3 * e); }
    if d == 7 { Multiple(n, 7, e); }
    if d == 8 { Multiple(n, 2, 4 * e); }
    if d == 9 { Multiple(n, 3, 3 * e); }
    if d == 10 { Multiple(n, 2, 5 * e); }
    if d == 11 { Multiple(n, 11, e); }
    if d == 12 { Multiple(n, 2, 6 * e); }
    if d == 13 { Multiple(n, 13, e); }
    if d == 14 { Multiple(n, 2, 7 * e); }
    if d == 15 { Multiple(n, 3, 5 * e); }
    if d == 16 { Multiple(n, 2, 8 * e); }
    if d == 17 { Multiple(n, 17, e); }
  }

  lemma Multiple(n: nat, d: nat, e: nat)
    requires d >= 2 && e >= 2 && n == d * e
    ensures n % d == 0 && n > d
  {
    DivModUnique(d, n, e, 0);
    assert d * e >= d * 2;
  }

  lemma LargeFactors(d: nat, e: nat)
    requires d >= 18 && e >= 18
    ensures d * e >= 18 * 18
  {
    assert d * e == (d - 18) * e + 18 * e;
  }

  lemma {:induction false} NoDivisor(n: nat, d: nat)
    requires 2 <= d < n < 18 * 18 && Sieved(n)
    ensures n % d != 0
  {
    if n % d == 0 {
      var e := n / d;
      assert n == d * e && e >= 2;
      if d >= 18 && e >= 18 { LargeFactors(d, e); }
      if d <= 17 { SmallDivisor(n, d, e); } else { SmallDivisor(n, e, d); }
    }
  }

  lemma {:induction false} SievedIsPrime(n: nat)
    requires 2 <= n < 18 * 18 && Sieved(n)
    ensures IsPrime(n)
  {
    forall d: nat | 2 <= d < n ensures n % d != 0 {
      NoDivisor(n, d);
    }
  }

  /** None of the numbers from `lo` up to `hi` passes the sieve. */
  predicate NoneFrom(lo: nat, hi: nat)
    decreases hi - lo
  {
    lo < hi ==> !Sieved(lo) && NoneFrom(lo + 1, hi)
  }

  lemma {:induction false} Gap(lo: nat, hi: nat, n: nat)
    requires NoneFrom(lo, hi)
    ensures lo <= n < hi ==> !Sieved(n)
    decreases hi - lo
  {
    if lo < n < hi { Gap(lo + 1, hi, n); }
  }

  lemma Between2And23(n: nat)
    requires 2 <= n < 23
    ensures Sieved(n) <==> n in PRIMES_0
  {
    assert n in PRIMES_0 <==> n == 2 || n == 3 || n == 5 || n == 7 || n == 11 || n == 13 || n == 17 || n == 19;
    Gap(4, 5, n); Gap(6, 7, n); Gap(8, 11, n); Gap(12, 13, n);
    Gap(14, 17, n); Gap(18, 19, n); Gap(20, 23, n);
  }

  lemma Between23And59(n: nat)
    requires 23 <= n < 59
    ensures Sieved(n) <==> n in PRIMES_8
  {
    assert n in PRIMES_8 <==> n == 23 || n == 29 || n == 31 || n == 37 || n == 41 || n == 43 || n == 47 || n == 53;
    Gap(24, 29, n); Gap(30, 31, n); Gap(32, 37, n); Gap(38, 41, n);
    Gap(42, 43, n); Gap(44, 47, n); Gap(48, 53, n); Gap(54, 59, n);
  }

  lemma Between59And97(n: nat)
    requires 59 <= n < 97
    ensures Sieved(n) <==> n in PRIMES_16
  {
    assert n in PRIMES_16 <==> n == 59 || n == 61 || n == 67 || n == 71 || n == 73 || n == 79 || n == 83 || n == 89;
    Gap(60, 61, n); Gap(62, 67, n); Gap(68, 71, n); Gap(72, 73, n);
    Gap(74, 79, n); Gap(80, 83, n); Gap(84, 89, n); Gap(90, 97, n);
  }

  lemma Between97And137(n: nat)
    requires 97 <= n < 137
    ensures Sieved(n) <==> n in PRIMES_24
  {
    assert n in PRIMES_24 <==>
           (n == 97 || n == 101 || n == 103 || n == 107
            || n == 109 || n == 113 || n == 127 || n == 131);
    Gap(98, 101, n); Gap(102, 103, n); Gap(104, 107, n); Gap(108, 109, n);
    Gap(110, 113, n); Gap(114, 127, n); Gap(128, 131, n); Gap(132, 137, n);
  }

  lemma Between137And179(n: nat)
    requires 137 <= n < 179
    ensures Sieved(n) <==> n in PRIMES_32
  {
    assert n in PRIMES_32 <==>
           (n == 137 || n == 139 || n == 149 || n == 151
            || n == 157 || n == 163 || n == 167 || n == 173);
    Gap(138, 139, n); Gap(140, 149, n); Gap(150, 151, n); Gap(152, 157, n);
    Gap(158, 163, n); Gap(164, 167, n); Gap(168, 173, n); Gap(174, 179, n);
  }

  lemma Between179And227(n: nat)
    requires 179 <= n < 227
    ensures Sieved(n) <==> n in PRIMES_40
  {
    assert n in PRIMES_40 <==>
           (n == 179 || n == 181 || n == 191 || n == 193
            || n == 197 || n == 199 || n == 211 || n == 223);
    Gap(180, 181, n); Gap(182, 191, n); Gap(192, 193, n); Gap(194, 197, n);
    Gap(198, 199, n); Gap(200, 211, n); Gap(212, 223, n); Gap(224, 227, n);
  }

  lemma Between227And269(n: nat)
    requires 227 <= n < 269
    ensures Sieved(n) <==> n in PRIMES_48
  {
    assert n in PRIMES_48 <==>
           (n == 227 || n == 229 || n == 233 || n == 239
            || n == 241 || n == 251 || n == 257 || n == 263);
    Gap(228, 229, n); Gap(230, 233, n); Gap(234, 239, n); Gap(240, 241, n);
    Gap(242, 251, n); Gap(252, 257, n); Gap(258, 263, n); Gap(264, 269, n);
  }

  lemma Between269And312(n: nat)
    requires 269 <= n < 312
    ensures Sieved(n) <==> n in PRIMES_56
  {
    assert n in PRIMES_56 <==>
           (n == 269 || n == 271 || n == 277 || n == 281
            || n == 283 || n == 293 || n == 307 || n == 311);
    Gap(270, 271, n); Gap(272, 277, n); Gap(278, 281, n); Gap(282, 283, n);
    Gap(284, 293, n); Gap(294, 307, n); Gap(308, 311, n);
  }

  lemma Primes0()
    ensures |PRIMES| == 64
    ensures PRIMES[0] == 2 && PRIMES[1] == 3 && PRIMES[2] == 5 && PRIMES[3] == 7
    ensures PRIMES[4] == 11 && PRIMES[5] == 13 && PRIMES[6] == 17 && PRIMES[7] == 19
  {
  }

  lemma Primes8()
    ensures |PRIMES| == 64
    ensures PRIMES[8] == 23 && PRIMES[9] == 29 && PRIMES[10] == 31 && PRIMES[11] == 37
    ensures PRIMES[12] == 41 && PRIMES[13] == 43 && PRIMES[14] == 47 && PRIMES[15] == 53
  {
  }

  lemma Primes16()
    ensures |PRIMES| == 64
    ensures PRIMES[16] == 59 && PRIMES[17] == 61 && PRIMES[18] == 67 && PRIMES[19] == 71
    ensures PRIMES[20] == 73 && PRIMES[21] == 79 && PRIMES[22] == 83 && PRIMES[23] == 89
  {
  }

  lemma Primes24()
    ensures |PRIMES| == 64
    ensures PRIMES[24] == 97 && PRIMES[25] == 101 && PRIMES[26] == 103 && PRIMES[27] == 107
    ensures PRIMES[28] == 109 && PRIMES[29] == 113 && PRIMES[30] == 127 && PRIMES[31] == 131
  {
  }

  lemma Primes32()
    ensures |PRIMES| == 64
    ensures PRIMES[32] == 137 && PRIMES[33] == 139 && PRIMES[34] == 149 && PRIMES[35] == 151
    ensures PRIMES[36] == 157 && PRIMES[37] == 163 && PRIMES[38] == 167 && PRIMES[39] == 173
  {
  }

  lemma Primes40()
    ensures |PRIMES| == 64
    ensures PRIMES[40] == 179 && PRIMES[41] == 181 && PRIMES[42] == 191 && PRIMES[43] == 193
    ensures PRIMES[44] == 197 && PRIMES[45] == 199 && PRIMES[46] == 211 && PRIMES[47] == 223
  {
  }

  lemma Primes48()
    ensures |PRIMES| == 64
    ensures PRIMES[48] == 227 && PRIMES[49] == 229 && PRIMES[50] == 233 && PRIMES[51] == 239
    ensures PRIMES[52] == 241 && PRIMES[53] == 251 && PRIMES[54] == 257 && PRIMES[55] == 263
  {
  }

  lemma Primes56()
    ensures |PRIMES| == 64
    ensures PRIMES[56] == 269 && PRIMES[57] == 271 && PRIMES[58] == 277 && PRIMES[59] == 281
    ensures PRIMES[60] == 283 && PRIMES[61] == 293 && PRIMES[62] == 307 && PRIMES[63] == 311
  {
  }

  lemma InRows(n: nat)
    ensures n in PRIMES <==>
              || n in PRIMES_0 || n in PRIMES_8 || n in PRIMES_16 || n in PRIMES_24
              || n in PRIMES_32 || n in PRIMES_40 || n in PRIMES_48 || n in PRIMES_56
  {
  }

  lemma RowsLieApart(n: nat)
    ensures n in PRIMES_0 ==> 2 <= n < 23
    ensures n in PRIMES_8 ==> 23 <= n < 59
    ensures n in PRIMES_16 ==> 59 <= n < 97
    ensures n in PRIMES_24 ==> 97 <= n < 137
    ensures n in PRIMES_32 ==> 137 <= n < 179
    ensures n in PRIMES_40 ==> 179 <= n < 227
    ensures n in PRIMES_48 ==> 227 <= n < 269
    ensures n in PRIMES_56 ==> 269 <= n < 312
  {
  }

  lemma {:induction false} ListedIffPrime(n: nat)
    requires n < 312
    ensures n in PRIMES <==> IsPrime(n)
  {
    InRows(n);
    RowsLieApart(n);
    if n >= 2 {
      if Sieved(n) { SievedIsPrime(n); }
      if IsPrime(n) { PrimesAreSieved(n); }
      if n < 23 { Between2And23(n); }
      else if n < 59 { Between23And59(n); }
      else if n < 97 { Between59And97(n); }
      else if n < 137 { Between97And137(n); }
      else if n < 179 { Between137And179(n); }
      else if n < 227 { Between179And227(n); }
      else if n < 269 { Between227And269(n); }
      else { Between269And312(n); }
    }
  }

  lemma Constants0()
    ensures K[0] == 0x428a2f98 && K[1] == 0x71374491 && K[2] == 0xb5c0fbcf && K[3] == 0xe9b5dba5
    ensures K[4] == 0x3956c25b && K[5] == 0x59f111f1 && K[6] == 0x923f82a4 && K[7] == 0xab1c5ed5
  {
  }

  lemma Constants8()
    ensures K[8] == 0xd807aa98 && K[9] == 0x12835b01 && K[10] == 0x243185be && K[11] == 0x550c7dc3
    ensures K[12] == 0x72be5d74 && K[13] == 0x80deb1fe && K[14] == 0x9bdc06a7 && K[15] == 0xc19bf174
  {
  }

  lemma Constants16()
    ensures K[16] == 0xe49b69c1 && K[17] == 0xefbe4786 && K[18] == 0x0fc19dc6 && K[19] == 0x240ca1cc
    ensures K[20] == 0x2de92c6f && K[21] == 0x4a7484aa && K[22] == 0x5cb0a9dc && K[23] == 0x76f988da
  {
  }

  lemma Constants24()
    ensures K[24] == 0x983e5152 && K[25] == 0xa831c66d && K[26] == 0xb00327c8 && K[27] == 0xbf597fc7
    ensures K[28] == 0xc6e00bf3 && K[29] == 0xd5a79147 && K[30] == 0x06ca6351 && K[31] == 0x14292967
  {
  }

  lemma Constants32()
    ensures K[32] == 0x27b70a85 && K[33] == 0x2e1b2138 && K[34] == 0x4d2c6dfc && K[35] == 0x53380d13
    ensures K[36] == 0x650a7354 && K[37] == 0x766a0abb && K[38] == 0x81c2c92e && K[39] == 0x92722c85
  {
  }

  lemma Constants40()
    ensures K[40] == 0xa2bfe8a1 && K[41] == 0xa81a664b && K[42] == 0xc24b8b70 && K[43] == 0xc76c51a3
    ensures K[44] == 0xd192e819 && K[45] == 0xd6990624 && K[46] == 0xf40e3585 && K[47] == 0x106aa070
  {
  }

  lemma Constants48()
    ensures K[48] == 0x19a4c116 && K[49] == 0x1e376c08 && K[50] == 0x2748774c && K[51] == 0x34b0bcb5
    ensures K[52] == 0x391c0cb3 && K[53] == 0x4ed8aa4a && K[54] == 0x5b9cca4f && K[55] == 0x682e6ff3
  {
  }

  lemma Constants56()
    ensures K[56] == 0x748f82ee && K[57] == 0x78a5636f && K[58] == 0x84c87814 && K[59] == 0x8cc70208
    ensures K[60] == 0x90befffa && K[61] == 0xa4506ceb && K[62] == 0xbef9a3f7 && K[63] == 0xc67178f2
  {
  }

  lemma Increasing0(i: nat, j: nat)
    requires 0 <= i < 32 && j == i + 1 < 64
    ensures PRIMES[i] < PRIMES[j]
  {
    if i < 8 {
      Primes0();
      Primes8();
    } else if i < 16 {
      Primes8();
      Primes16();
    } else if i < 24 {
      Primes16();
      Primes24();
    } else {
      Primes24();
      Primes32();
    }
  }

  lemma Increasing32(i: nat, j: nat)
    requires 32 <= i < 64 && j == i + 1 < 64
    ensures PRIMES[i] < PRIMES[j]
  {
    if i < 40 {
      Primes32();
      Primes40();
    } else if i < 48 {
      Primes40();
      Primes48();
    } else if i < 56 {
      Primes48();
      Primes56();
    } else {
      Primes56();
    }
  }

  /** `PRIMES` are the first 64 primes: all of those up to the last one, in increasing order. */
  lemma {:induction false} PrimesAreTheFirst(n: nat, i: nat, j: nat)
    ensures |PRIMES| == 64
    ensures n <= PRIMES[63] ==> (n in PRIMES <==> IsPrime(n))
    ensures j == i + 1 < 64 ==> PRIMES[i] < PRIMES[j]
  {
    Primes56();
    if n <= PRIMES[63] { ListedIffPrime(n); }
    if j == i + 1 < 64 {
      if i < 32 { Increasing0(i, j); } else { Increasing32(i, j); }
    }
  }

  // ----- roots -----

  /** `r` is the root, cut off after 32 binary places. */
  predicate IsCubeRoot(p: nat, r: nat) {
    r * r * r <= p * 0x1_0000_0000_0000_0000_0000_0000 < (r + 1) * (r + 1) * (r + 1)
  }

  predicate IsSquareRoot(p: nat, r: nat) {
    r * r <= p * 0x1_0000_0000_0000_0000 < (r + 1) * (r + 1)
  }

  /** The word holds the first 32 places behind the point of the cube root of `p`. */
  ghost predicate CubeFraction(p: nat, x: bv32) {
    exists q: nat :: IsCubeRoot(p, q * 0x1_0000_0000 + x as nat)
  }

  ghost predicate SquareFraction(p: nat, x: bv32) {
    exists q: nat :: IsSquareRoot(p, q * 0x1_0000_0000 + x as nat)
  }

  /** Constant number `i` of the rounds holds the first 32 places of the cube root of prime number `i`. */
  ghost predicate IsRoundConstant(i: nat)
    requires i < 64
  {
    |PRIMES| == 64 && CubeFraction(PRIMES[i], K[i])
  }

  lemma Cubes0(i: nat)
    requires 0 <= i < 8
    ensures IsRoundConstant(i)
  {
    Primes0();
    Constants0();
    assert IsCubeRoot(2, 1 * 0x1_0000_0000 + 0x428a2f98);
    assert IsCubeRoot(3, 1 * 0x1_0000_0000 + 0x71374491);
    assert IsCubeRoot(5, 1 * 0x1_0000_0000 + 0xb5c0fbcf);
    assert IsCubeRoot(7, 1 * 0x1_0000_0000 + 0xe9b5dba5);
    assert IsCubeRoot(11, 2 * 0x1_0000_0000 + 0x3956c25b);
    assert IsCubeRoot(13, 2 * 0x1_0000_0000 + 0x59f111f1);
    assert IsCubeRoot(17, 2 * 0x1_0000_0000 + 0x923f82a4);
    assert IsCubeRoot(19, 2 * 0x1_0000_0000 + 0xab1c5ed5);
    assert forall j | 0 <= j < 8 :: IsRoundConstant(j);
  }

  lemma Cubes8(i: nat)
    requires 8 <= i < 16
    ensures IsRoundConstant(i)
  {
    Primes8();
    Constants8();
    assert IsCubeRoot(23, 2 * 0x1_0000_0000 + 0xd807aa98);
    assert IsCubeRoot(29, 3 * 0x1_0000_0000 + 0x12835b01);
    assert IsCubeRoot(31, 3 * 0x1_0000_0000 + 0x243185be);
    assert IsCubeRoot(37, 3 * 0x1_0000_0000 + 0x550c7dc3);
    assert IsCubeRoot(41, 3 * 0x1_0000_0000 + 0x72be5d74);
    assert IsCubeRoot(43, 3 * 0x1_0000_0000 + 0x80deb1fe);
    assert IsCubeRoot(47, 3 * 0x1_0000_0000 + 0x9bdc06a7);
    assert IsCubeRoot(53, 3 * 0x1_0000_0000 + 0xc19bf174);
    assert forall j | 8 <= j < 16 :: IsRoundConstant(j);
  }

  lemma Cubes16(i: nat)
    requires 16 <= i < 24
    ensures IsRoundConstant(i)
  {
    Primes16();
    Constants16();
    assert IsCubeRoot(59, 3 * 0x1_0000_0000 + 0xe49b69c1);
    assert IsCubeRoot(61, 3 * 0x1_0000_0000 + 0xefbe4786);
    assert IsCubeRoot(67, 4 * 0x1_0000_0000 + 0x0fc19dc6);
    assert IsCubeRoot(71, 4 * 0x1_0000_0000 + 0x240ca1cc);
    assert IsCubeRoot(73, 4 * 0x1_0000_0000 + 0x2de92c6f);
    assert IsCubeRoot(79, 4 * 0x1_0000_0000 + 0x4a7484aa);
    assert IsCubeRoot(83, 4 * 0x1_0000_0000 + 0x5cb0a9dc);
    assert IsCubeRoot(89, 4 * 0x1_0000_0000 + 0x76f988da);
    assert forall j | 16 <= j < 24 :: IsRoundConstant(j);
  }

  lemma Cubes24(i: nat)
    requires 24 <= i < 32
    ensures IsRoundConstant(i)
  {
    Primes24();
    Constants24();
    assert IsCubeRoot(97, 4 * 0x1_0000_0000 + 0x983e5152);
    assert IsCubeRoot(101, 4 * 0x1_0000_0000 + 0xa831c66d);
    assert IsCubeRoot(103, 4 * 0x1_0000_0000 + 0xb00327c8);
    assert IsCubeRoot(107, 4 * 0x1_0000_0000 + 0xbf597fc7);
    assert IsCubeRoot(109, 4 * 0x1_0000_0000 + 0xc6e00bf3);
    assert IsCubeRoot(113, 4 * 0x1_0000_0000 + 0xd5a79147);
    assert IsCubeRoot(127, 5 * 0x1_0000_0000 + 0x06ca6351);
    assert IsCubeRoot(131, 5 * 0x1_0000_0000 + 0x14292967);
    assert forall j | 24 <= j < 32 :: IsRoundConstant(j);
  }

  lemma Cubes32(i: nat)
    requires 32 <= i < 40
    ensures IsRoundConstant(i)
  {
    Primes32();
    Constants32();
    assert IsCubeRoot(137, 5 * 0x1_0000_0000 + 0x27b70a85);
    assert IsCubeRoot(139, 5 * 0x1_0000_0000 + 0x2e1b2138);
    assert IsCubeRoot(149, 5 * 0x1_0000_0000 + 0x4d2c6dfc);
    assert IsCubeRoot(151, 5 * 0x1_0000_0000 + 0x53380d13);
    assert IsCubeRoot(157, 5 * 0x1_0000_0000 + 0x650a7354);
    assert IsCubeRoot(163, 5 * 0x1_0000_0000 + 0x766a0abb);
    assert IsCubeRoot(167, 5 * 0x1_0000_0000 + 0x81c2c92e);
    assert IsCubeRoot(173, 5 * 0x1_0000_0000 + 0x92722c85);
    assert forall j | 32 <= j < 40 :: IsRoundConstant(j);
  }

  lemma Cubes40(i: nat)
    requires 40 <= i < 48
    ensures IsRoundConstant(i)
  {
    Primes40();
    Constants40();
    assert IsCubeRoot(179, 5 * 0x1_0000_0000 + 0xa2bfe8a1);
    assert IsCubeRoot(181, 5 * 0x1_0000_0000 + 0xa81a664b);
    assert IsCubeRoot(191, 5 * 0x1_0000_0000 + 0xc24b8b70);
    assert IsCubeRoot(193, 5 * 0x1_0000_0000 + 0xc76c51a3);
    assert IsCubeRoot(197, 5 * 0x1_0000_0000 + 0xd192e819);
    assert IsCubeRoot(199, 5 * 0x1_0000_0000 + 0xd6990624);
    assert IsCubeRoot(211, 5 * 0x1_0000_0000 + 0xf40e3585);
    assert IsCubeRoot(223, 6 * 0x1_0000_0000 + 0x106aa070);
    assert forall j | 40 <= j < 48 :: IsRoundConstant(j);
  }

  lemma Cubes48(i: nat)
    requires 48 <= i < 56
    ensures IsRoundConstant(i)
  {
    Primes48();
    Constants48();
    assert IsCubeRoot(227, 6 * 0x1_0000_0000 + 0x19a4c116);
    assert IsCubeRoot(229, 6 * 0x1_0000_0000 + 0x1e376c08);
    assert IsCubeRoot(233, 6 * 0x1_0000_0000 + 0x2748774c);
    assert IsCubeRoot(239, 6 * 0x1_0000_0000 + 0x34b0bcb5);
    assert IsCubeRoot(241, 6 * 0x1_0000_0000 + 0x391c0cb3);
    assert IsCubeRoot(251, 6 * 0x1_0000_0000 + 0x4ed8aa4a);
    assert IsCubeRoot(257, 6 * 0x1_0000_0000 + 0x5b9cca4f);
    assert IsCubeRoot(263, 6 * 0x1_0000_0000 + 0x682e6ff3);
    assert forall j | 48 <= j < 56 :: IsRoundConstant(j);
  }

  lemma Cubes56(i: nat)
    requires 56 <= i < 64
    ensures IsRoundConstant(i)
  {
    Primes56();
    Constants56();
    assert IsCubeRoot(269, 6 * 0x1_0000_0000 + 0x748f82ee);
    assert IsCubeRoot(271, 6 * 0x1_0000_0000 + 0x78a5636f);
    assert IsCubeRoot(277, 6 * 0x1_0000_0000 + 0x84c87814);
    assert IsCubeRoot(281, 6 * 0x1_0000_0000 + 0x8cc70208);
    assert IsCubeRoot(283, 6 * 0x1_0000_0000 + 0x90befffa);
    assert IsCubeRoot(293, 6 * 0x1_0000_0000 + 0xa4506ceb);
    assert IsCubeRoot(307, 6 * 0x1_0000_0000 + 0xbef9a3f7);
    assert IsCubeRoot(311, 6 * 0x1_0000_0000 + 0xc67178f2);
    assert forall j | 56 <= j < 64 :: IsRoundConstant(j);
  }

  lemma {:induction false} RoundConstants(i: nat)
    requires i < 64
    ensures IsRoundConstant(i)
  {
    if i < 8 { Cubes0(i); }
    else if i < 16 { Cubes8(i); }
    else if i < 24 { Cubes16(i); }
    else if i < 32 { Cubes24(i); }
    else if i < 40 { Cubes32(i); }
    else if i < 48 { Cubes40(i); }
    else if i < 56 { Cubes48(i); }
    else { Cubes56(i); }
  }

  /** The words of the start value hold those of the square roots of the first eight primes. */
  lemma StartValues()
    ensures |PRIMES| == 64
    ensures SquareFraction(PRIMES[0], InitialHash.a) && SquareFraction(PRIMES[1], InitialHash.b)
    ensures SquareFraction(PRIMES[2], InitialHash.c) && SquareFraction(PRIMES[3], InitialHash.d)
    ensures SquareFraction(PRIMES[4], InitialHash.e) && SquareFraction(PRIMES[5], InitialHash.f)
    ensures SquareFraction(PRIMES[6], InitialHash.g) && SquareFraction(PRIMES[7], InitialHash.h)
  {
    Primes0();
    assert IsSquareRoot(2, 1 * 0x1_0000_0000 + 0x6a09e667);
    assert IsSquareRoot(3, 1 * 0x1_0000_0000 + 0xbb67ae85);
    assert IsSquareRoot(5, 2 * 0x1_0000_0000 + 0x3c6ef372);
    assert IsSquareRoot(7, 2 * 0x1_0000_0000 + 0xa54ff53a);
    assert IsSquareRoot(11, 3 * 0x1_0000_0000 + 0x510e527f);
    assert IsSquareRoot(13, 3 * 0x1_0000_0000 + 0x9b05688c);
    assert IsSquareRoot(17, 4 * 0x1_0000_0000 + 0x1f83d9ab);
    assert IsSquareRoot(19, 4 * 0x1_0000_0000 + 0x5be0cd19);
  }
}
