/**
 The target test, `meets_difficulty`: a loop over the bytes of a digest that compares
 whole bytes and then a masked byte.  It is integer comparison with a power of two.
 */
module Target {
  import opened Arithmetic
  import opened Fips180

  /** The digest, read as a big-endian integer, is below 2^(256 - bits); below 1 when `bits`
      exceeds the width of the digest. */
  predicate MeetsTarget(hash: Bytes, bits: nat) {
    FromBigEndian(hash) < (if bits <= 8 * |hash| then Power2(8 * |hash| - bits) else 1)
  }

  // ----- integers and bytes -----

  lemma {:induction false} Power2Plus(a: nat, b: nat)
    ensures Power2(a + b) == Power2(a) * Power2(b)
  {
    if a > 0 {
      Power2Plus(a - 1, b);
      assert Power2(a + b) == 2 * (Power2(a - 1) * Power2(b));
    }
  }

  lemma {:induction false} Power256Is(k: nat)
    ensures Power256(k) == Power2(8 * k)
  {
    if k > 0 {
      Power256Is(k - 1);
      Power2Plus(8, 8 * (k - 1));
      assert Power2(8) == 256;
    }
  }

  lemma {:induction false} Power2Monotone(a: nat, b: nat)
    requires a <= b
    ensures Power2(a) <= Power2(b)
  {
    if a < b { Power2Monotone(a, b - 1); }
  }

  /** The value in terms of the first byte and the rest, which is less than one unit of it. */
  lemma {:induction false} LeadingByte(b: Bytes)
    requires b != []
    ensures FromBigEndian(b) == b[0] as nat * Power256(|b| - 1) + FromBigEndian(b[1..])
    ensures FromBigEndian(b[1..]) < Power256(|b| - 1)
  {
    var n := |b| - 1;
    if n == 0 {
      assert b[..0] == [] && b[1..] == [];
    } else {
      LeadingByte(b[..n]);
      assert b[..n][1..] == b[1..][..n - 1];
      assert b[..n][0] == b[0] && b[1..][n - 1] == b[n];
      Distribute(b[0] as nat, Power256(n - 1), FromBigEndian(b[..n][1..]));
    }
  }

  lemma Distribute(x: nat, p: nat, y: nat)
    ensures 256 * (x * p + y) == x * (256 * p) + 256 * y
  {
  }

  lemma {:induction false} ValueBound(b: Bytes)
    ensures FromBigEndian(b) < Power256(|b|)
  {
    if b != [] { ValueBound(b[..|b| - 1]); }
  }

  ghost predicate ZeroPrefix(b: Bytes, i: nat)
    requires i <= |b|
  {
    forall j | 0 <= j < i :: b[j] == 0
  }

  lemma {:induction false} SkipZeros(b: Bytes, i: nat)
    requires i <= |b| && ZeroPrefix(b, i)
    ensures FromBigEndian(b) == FromBigEndian(b[i..])
  {
    if i == 0 {
      assert b[0..] == b;
    } else {
      LeadingByte(b);
      SkipZeros(b[1..], i - 1);
      assert b[1..][i - 1..] == b[i..];
    }
  }

  // ----- the three ways the loop answers -----

  /** No bits left to test: the rest of the digest may be anything. */
  lemma {:induction false} NoBitsLeft(b: Bytes, i: nat)
    requires i <= |b| && ZeroPrefix(b, i)
    ensures MeetsTarget(b, 8 * i)
  {
    SkipZeros(b, i);
    ValueBound(b[i..]);
    Power256Is(|b| - i);
  }

  /** A byte that must be zero is not. */
  lemma {:induction false} NonzeroByte(b: Bytes, i: nat, bits: nat)
    requires i < |b| && ZeroPrefix(b, i) && b[i] != 0 && bits >= 8 * i + 8
    ensures !MeetsTarget(b, bits)
  {
    SkipZeros(b, i);
    LeadingByte(b[i..]);
    MulBound(b[i] as nat, Power256(|b| - i - 1));
    Power256Is(|b| - i - 1);
    if bits <= 8 * |b| { Power2Monotone(8 * |b| - bits, 8 * (|b| - i - 1)); }
  }

  /** The mask that keeps the `r` most significant bits of a byte. */
  function Mask(r: nat): bv8
    requires 0 < r < 8
  {
    match r
    case 1 => 0x80
    case 2 => 0xC0
    case 3 => 0xE0
    case 4 => 0xF0
    case 5 => 0xF8
    case 6 => 0xFC
    case 7 => 0xFE
  }

  /** The mask is 0xFF shifted left and truncated to a byte. */
  lemma MaskIsShift(r: nat)
    requires 0 < r < 8
    ensures (0xFF as bv8) << (8 - r) == Mask(r)
  {
    if {
      case r == 1 =>
      case r == 2 =>
      case r == 3 =>
      case r == 4 =>
      case r == 5 =>
      case r == 6 =>
      case r == 7 =>
    }
  }

  lemma MaskTest(b: bv8, r: nat)
    requires 0 < r < 8
    ensures b & Mask(r) == 0 <==> b as nat < Power2(8 - r)
  {
    assert Power2(1) == 2 && Power2(2) == 4 && Power2(3) == 8 && Power2(4) == 16;
    assert Power2(5) == 32 && Power2(6) == 64 && Power2(7) == 128;
    if {
      case r == 1 =>
      case r == 2 =>
      case r == 3 =>
      case r == 4 =>
      case r == 5 =>
      case r == 6 =>
      case r == 7 =>
    }
  }

  /** The value of a digest whose first `i` bytes are zero. */
  lemma {:induction false} ValueFrom(b: Bytes, i: nat)
    requires i < |b| && ZeroPrefix(b, i)
    ensures var rest := FromBigEndian(b[i..][1..]);
            FromBigEndian(b) == b[i] as nat * Power256(|b| - i - 1) + rest && rest < Power256(|b| - i - 1)
  {
    SkipZeros(b, i);
    LeadingByte(b[i..]);
    assert b[i..][0] == b[i];
  }

  /** The bound that a target sets, by its whole bytes and its last bits. */
  lemma {:induction false} TargetSplits(n: nat, r: nat)
    requires r <= 8
    ensures Power2(8 * n + 8 - r) == Power2(8 - r) * Power256(n)
  {
    Power256Is(n);
    Power2Plus(8 - r, 8 * n);
  }

  /** The last, masked byte decides. */
  lemma {:induction false} MaskedByte(b: Bytes, i: nat, r: nat)
    requires i < |b| && ZeroPrefix(b, i) && 0 < r < 8
    ensures b[i] & Mask(r) == 0 <==> MeetsTarget(b, 8 * i + r)
  {
    var n := |b| - i - 1;
    ValueFrom(b, i);
    MaskTest(b[i], r);
    TargetSplits(n, r);
    assert 8 * |b| - (8 * i + r) == 8 * n + 8 - r;
    LeadingDigit(b[i] as nat, Power2(8 - r), Power256(n), FromBigEndian(b[i..][1..]));
  }

  lemma LeadingDigit(x: nat, y: nat, p: nat, rest: nat)
    requires rest < p
    ensures x * p + rest < y * p <==> x < y
  {
    MulBound(y - x, p);
    assert (y - x) * p == y * p - x * p;
  }

  /** `meets_difficulty` is integer comparison. */
  method MeetsDifficulty(hash: Bytes, bits: nat) returns (meets: bool)
    requires |hash| == 32
    ensures meets <==> MeetsTarget(hash, bits)
  {
    var bitsLeft := bits;
    for i := 0 to |hash|
      invariant bitsLeft == bits - 8 * i
      invariant ZeroPrefix(hash, i)
    {
      if bitsLeft == 0 {
        NoBitsLeft(hash, i);
        return true;
      }
      if bitsLeft >= 8 {
        if hash[i] != 0 {
          NonzeroByte(hash, i, bits);
          return false;
        }
        bitsLeft := bitsLeft - 8;
      } else {
        MaskIsShift(bitsLeft);
        MaskedByte(hash, i, bitsLeft);
        var mask := (0xFF as bv8) << (8 - bitsLeft);
        return hash[i] & mask == 0;
      }
    }
    SkipZeros(hash, 32);
    assert hash[32..] == [];
    return true;
  }

  /** A harder target accepts fewer digests. */
  lemma {:induction false} TargetAntitone(hash: Bytes, easy: nat, hard: nat)
    requires easy <= hard && MeetsTarget(hash, hard)
    ensures MeetsTarget(hash, easy)
  {
    if hard <= 8 * |hash| { Power2Monotone(8 * |hash| - hard, 8 * |hash| - easy); }
  }
}
