/**
 The nonce search with the real hash and target: the payload each worker rewrites in
 place, the double SHA-256 of it, and what a finished search says about all 2^32 nonces.
 */
module Mining {
  import opened Arithmetic
  import opened Fips180
  import opened Target
  import opened NonceSearch
  import SearchLimits
  import Sha256Engine

  const NONCE_SPACE: nat := 0x1_0000_0000

  /** The nonce as the program stores it: four bytes, least significant first. */
  function NonceBytes(nonce: nat): (b: Bytes)
    ensures |b| == 4
  {
    [ByteOf(nonce, 0), ByteOf(nonce, 1), ByteOf(nonce, 2), ByteOf(nonce, 3)]
  }

  /** The four bytes hold the number, least significant byte first. */
  predicate Encodes(b: Bytes, nonce: nat) {
    |b| == 4 && b[0] as nat + 0x100 * b[1] as nat + 0x1_0000 * b[2] as nat + 0x100_0000 * b[3] as nat == nonce
  }

  /** What `NonceBytes` gives are the only four bytes that hold the nonce. */
  lemma {:induction false} NonceBytesEncode(nonce: nat, b: Bytes)
    requires nonce < NONCE_SPACE
    ensures Encodes(b, nonce) <==> b == NonceBytes(nonce)
  {
    FourBytes();
    Digits(nonce);
    var c := NonceBytes(nonce);
    if Encodes(b, nonce) {
      var b0, b1, b2, b3 := b[0] as nat, b[1] as nat, b[2] as nat, b[3] as nat;
      DigitsAreUnique(b0, b1, b2, b3, nonce);
      SameByte(b[0], c[0]);
      SameByte(b[1], c[1]);
      SameByte(b[2], c[2]);
      SameByte(b[3], c[3]);
    }
  }

  /** The base-256 digits of a number below 2^32. */
  lemma Digits(n: nat)
    requires n < NONCE_SPACE
    ensures n % 0x100 + 0x100 * (n / 0x100 % 0x100) + 0x1_0000 * (n / 0x1_0000 % 0x100)
            + 0x100_0000 * (n / 0x100_0000 % 0x100) == n
  {
    assert n / 0x1_0000 == n / 0x100 / 0x100 && n / 0x100_0000 == n / 0x1_0000 / 0x100;
  }

  lemma DigitsAreUnique(d0: nat, d1: nat, d2: nat, d3: nat, n: nat)
    requires d0 < 0x100 && d1 < 0x100 && d2 < 0x100 && d3 < 0x100
    requires d0 + 0x100 * d1 + 0x1_0000 * d2 + 0x100_0000 * d3 == n
    ensures n % 0x100 == d0 && n / 0x100 % 0x100 == d1
    ensures n / 0x1_0000 % 0x100 == d2 && n / 0x100_0000 % 0x100 == d3
  {
  }

  /** No two nonces give the same payload. */
  lemma {:induction false} NonceBytesInjective(x: nat, y: nat)
    requires x < NONCE_SPACE && y < NONCE_SPACE && NonceBytes(x) == NonceBytes(y)
    ensures x == y
  {
    NonceBytesEncode(x, NonceBytes(x));
    NonceBytesEncode(y, NonceBytes(y));
  }

  lemma FourBytes()
    ensures Power256(0) == 1 && Power256(1) == 0x100 && Power256(2) == 0x1_0000 && Power256(3) == 0x100_0000
    ensures Power256(4) == NONCE_SPACE
  {
    assert Power256(1) == 256 && Power256(2) == 0x1_0000 && Power256(3) == 0x100_0000;
  }

  function DoubleSha256(data: Bytes): (d: Bytes)
    ensures |d| == 32
  {
    Sha256(Sha256(data))
  }

  /** The search that `mine` performs for a prefix, a difficulty and a number of threads. */
  function MiningTask(prefix: Bytes, bits: nat, threads: nat): Task {
    Task(threads, NONCE_SPACE, (x: nat) => DoubleSha256(prefix + NonceBytes(x)), (h: Digest) => MeetsTarget(h, bits))
  }

  // ----- one iteration of a worker -----

  method NewPayload(prefix: Bytes) returns (payload: array<bv8>)
    ensures fresh(payload) && payload.Length == |prefix| + 4 && payload[..|prefix|] == prefix
  {
    payload := new bv8[|prefix| + 4](_ => 0);
    for i := 0 to |prefix|
      invariant payload[..i] == prefix[..i]
    {
      payload[i] := prefix[i];
    }
  }

  /** Writes the nonce over the last four bytes, least significant byte first, leaves the prefix,
      hashes and tests. */
  method TryNonce(payload: array<bv8>, ghost prefix: Bytes, nonce: nat, bits: nat, ghost threads: nat)
    returns (hash: array<bv8>, hit: bool)
    requires payload.Length == |prefix| + 4 < Sha256Engine.TWO_TO_THE_61 && payload[..|prefix|] == prefix
    requires nonce < NONCE_SPACE
    modifies payload
    ensures payload[..|prefix|] == prefix && Encodes(payload[|prefix|..], nonce)
    ensures payload[..] == prefix + NonceBytes(nonce)
    ensures hash[..] == Sha256(Sha256(payload[..])) == MiningTask(prefix, bits, threads).hash(nonce)
    ensures hit <==> MiningTask(prefix, bits, threads).Hit(nonce)
  {
    var base := payload.Length - 4;
    payload[base] := ByteOf(nonce, 0);
    payload[base + 1] := ByteOf(nonce, 1);
    payload[base + 2] := ByteOf(nonce, 2);
    payload[base + 3] := ByteOf(nonce, 3);
    assert payload[..] == prefix + NonceBytes(nonce);
    assert payload[|prefix|..] == NonceBytes(nonce);
    NonceBytesEncode(nonce, payload[|prefix|..]);
    hash := Sha256Engine.DoubleHash(payload[..]);
    hit := MeetsDifficulty(hash[..], bits);
  }

  // ----- what a finished search means -----

  /** `hash` is the SHA-256 of the SHA-256 of the prefix followed by the four bytes that hold the nonce, least
      significant first, and it is below the target as an integer. */
  ghost predicate Solves(prefix: Bytes, bits: nat, nonce: nat, hash: Digest) {
    && FromBigEndian(hash) < (if bits <= 256 then Power2(256 - bits) else 1)
    && exists b: Bytes :: Encodes(b, nonce) && hash == Sha256(Sha256(prefix + b))
  }

  /** The search hits exactly the nonces that solve the job. */
  lemma HitIsSolution(prefix: Bytes, bits: nat, threads: nat, nonce: nat)
    requires nonce < NONCE_SPACE
    ensures MiningTask(prefix, bits, threads).Hit(nonce) <==> exists hash :: Solves(prefix, bits, nonce, hash)
    ensures MiningTask(prefix, bits, threads).Hit(nonce) ==>
              Solves(prefix, bits, nonce, MiningTask(prefix, bits, threads).hash(nonce))
  {
    var hash := MiningTask(prefix, bits, threads).hash(nonce);
    NonceBytesEncode(nonce, NonceBytes(nonce));
    forall b: Bytes ensures Encodes(b, nonce) ==> b == NonceBytes(nonce) {
      NonceBytesEncode(nonce, b);
    }
    if MiningTask(prefix, bits, threads).Hit(nonce) {
      assert Encodes(NonceBytes(nonce), nonce) && hash == Sha256(Sha256(prefix + NonceBytes(nonce)));
      assert Solves(prefix, bits, nonce, hash);
    }
  }

  lemma NoHitNoSolution(prefix: Bytes, bits: nat, threads: nat)
    requires forall x: nat | x < NONCE_SPACE :: !MiningTask(prefix, bits, threads).Hit(x)
    ensures forall x: nat, hash | x < NONCE_SPACE :: !Solves(prefix, bits, x, hash)
  {
    forall x: nat, hash | x < NONCE_SPACE ensures !Solves(prefix, bits, x, hash) {
      HitIsSolution(prefix, bits, threads, x);
    }
  }

  /** Without a stop request, `mine` with at most 2^31 threads returns "not found" only if none
      of the 2^32 nonces solves the job, after hashing every one of them once. */
  lemma MineIsExhaustive(prefix: Bytes, bits: nat, threads: nat, acts: seq<Action>)
    requires 1 <= threads <= 0x8000_0000
    requires Legal(MiningTask(prefix, bits, threads), Init(MiningTask(prefix, bits, threads)), acts) && Undisturbed(acts)
    ensures var task := MiningTask(prefix, bits, threads);
            var s := Exec(task, Init(task), acts);
            s.supervisor == Returned && !s.result.found ==>
              && (forall x: nat, hash | x < NONCE_SPACE :: !Solves(prefix, bits, x, hash))
              && s.result.hashesTried == NONCE_SPACE
  {
    var task := MiningTask(prefix, bits, threads);
    SearchIsExhaustive(task, acts);
    var s := Exec(task, Init(task), acts);
    if s.supervisor == Returned && !s.result.found {
      NoHitNoSolution(prefix, bits, threads);
    }
  }

  /** In every interleaving, a found result is a nonce that solves the job, with its digest. */
  lemma MineIsSound(prefix: Bytes, bits: nat, threads: nat, acts: seq<Action>)
    requires 1 <= threads
    requires Legal(MiningTask(prefix, bits, threads), Init(MiningTask(prefix, bits, threads)), acts)
    ensures var task := MiningTask(prefix, bits, threads);
            var s := Exec(task, Init(task), acts);
            s.supervisor == Returned && s.result.found ==>
              && s.result.nonce < NONCE_SPACE
              && Solves(prefix, bits, s.result.nonce, s.result.hash)
  {
    var task := MiningTask(prefix, bits, threads);
    SearchIsSound(task, acts);
    var s := Exec(task, Init(task), acts);
    if s.supervisor == Returned && s.result.found {
      HitIsSolution(prefix, bits, threads, s.result.nonce);
      assert task.Hit(s.result.nonce);
    }
  }

  /** The configuration check accepts every positive thread count, but the exhaustion test
      of `mine` is trustworthy exactly up to 2^31 threads, and only without stop requests. */
  lemma ThreadLimit(threads: nat, stopsAllowed: bool)
    requires threads >= 1
    ensures SearchLimits.Trustworthy(threads, NONCE_SPACE, stopsAllowed) <==> !stopsAllowed && threads <= 0x8000_0000
  {
    SearchLimits.TrustworthyIffTwoNoncesPerWorker(threads, NONCE_SPACE, stopsAllowed);
  }

  /** Where stop requests may arrive, the reported `hashes_tried` tells: with up to 2^31 threads
      a result that is neither found nor aborted is right unless it is 2^32 - 1. */
  lemma HashesTriedTells(threads: nat, tried: nat)
    requires threads >= 1
    ensures threads <= 0x8000_0000 ==>
              (SearchLimits.CountTells(threads, NONCE_SPACE, tried) <==> tried != NONCE_SPACE - 1)
    ensures SearchLimits.CountTells(threads, NONCE_SPACE, NONCE_SPACE) <==> threads <= 0x8000_0000
  {
    SearchLimits.CountTellsIff(threads, NONCE_SPACE, tried);
  }
}
