/**
 The hash as the program computes it: one padded buffer, one 64-word schedule buffer
 that is reused for every block, eight working variables that are shifted in place.
 Each method is proved against the recursive definition in `Fips180`.
 */
module Sha256Engine {
  import opened Fips180

  const TWO_TO_THE_61: nat := 0x2000_0000_0000_0000
  const TWO_TO_THE_64: nat := 0x1_0000_0000_0000_0000

  /** Writes the length field over the last eight bytes. */
  method WriteLength(msg: array<bv8>, bitLen: nat)
    requires msg.Length >= 8
    modifies msg
    ensures forall j | 0 <= j < msg.Length - 8 :: msg[j] == old(msg[j])
    ensures forall j | 0 <= j < 8 :: msg[msg.Length - 1 - j] == ByteOf(bitLen, j)
  {
    for i := 0 to 8
      invariant forall j | 0 <= j < msg.Length - i :: msg[j] == old(msg[j])
      invariant forall j | 0 <= j < i :: msg[msg.Length - 1 - j] == ByteOf(bitLen, j)
    {
      msg[msg.Length - 1 - i] := ByteOf(bitLen, i);
    }
  }

  /** The size the program allocates is the padded length of FIPS 180-4. */
  lemma TotalLength(len: nat)
    ensures ((len + 9 + 63) / 64) * 64 == len + 9 + ZeroCount(len)
  {
  }

  /** The message, the 0x80 byte and zeros. */
  method CopyMessage(data: Bytes) returns (msg: array<bv8>)
    ensures fresh(msg) && msg.Length == |data| + 9 + ZeroCount(|data|)
    ensures msg[..|data|] == data && msg[|data|] == 0x80
    ensures forall j | |data| < j < msg.Length :: msg[j] == 0
  {
    var len := |data|;
    var totalLen := ((len + 9 + 63) / 64) * 64;
    TotalLength(len);
    msg := new bv8[totalLen](_ => 0);
    for i := 0 to len
      invariant msg[..i] == data[..i]
      invariant forall j | i <= j < totalLen :: msg[j] == 0
    {
      msg[i] := data[i];
    }
    msg[len] := 0x80;
  }

  /** The padded message, built in a zeroed buffer. */
  method PadMessage(data: Bytes) returns (msg: array<bv8>)
    requires |data| < TWO_TO_THE_61
    ensures fresh(msg) && msg[..] == Pad(data)
  {
    var bitLen := (|data| * 8) % TWO_TO_THE_64;
    assert bitLen == 8 * |data|;
    msg := CopyMessage(data);
    WriteLength(msg, bitLen);
    assert msg[..|data|] == data;
    PadParts(data, msg[..]);
  }

  /** A buffer with the four parts of the padding in place is the padding. */
  lemma PadParts(data: Bytes, msg: Bytes)
    requires |msg| == |data| + 9 + ZeroCount(|data|)
    requires msg[..|data|] == data && msg[|data|] == 0x80
    requires forall j | |data| < j < |msg| - 8 :: msg[j] == 0
    requires forall j | 0 <= j < 8 :: msg[|msg| - 1 - j] == ByteOf(8 * |data|, j)
    ensures msg == Pad(data)
  {
    var field := msg[|msg| - 8..];
    assert field == BigEndian(8 * |data|, 8) by {
      forall i | 0 <= i < 8 ensures field[i] == ByteOf(8 * |data|, 7 - i) {
        assert field[i] == msg[|msg| - 1 - (7 - i)];
      }
    }
    assert msg[|data| + 1..|msg| - 8] == Zeros(ZeroCount(|data|));
    assert msg == msg[..|data|] + [msg[|data|]] + msg[|data| + 1..|msg| - 8] + field;
  }

  /** Fills the schedule buffer for one block; what a previous block left in it is overwritten. */
  method FillSchedule(msg: array<bv8>, offset: nat, w: array<bv32>)
    requires offset + 64 <= msg.Length && w.Length == 64
    modifies w
    ensures forall t | 0 <= t < 64 :: w[t] == Schedule(msg[..], offset, t)
  {
    for i := 0 to 16
      invariant forall t | 0 <= t < i :: w[t] == Schedule(msg[..], offset, t)
    {
      var j := offset + i * 4;
      w[i] := ((msg[j] as bv32) << 24) | ((msg[j + 1] as bv32) << 16) | ((msg[j + 2] as bv32) << 8) | (msg[j + 3] as bv32);
      assert w[i] == WordAt(msg[..], j);
    }
    for i := 16 to 64
      invariant forall t | 0 <= t < i :: w[t] == Schedule(msg[..], offset, t)
    {
      w[i] := Expand(w[i - 2], w[i - 7], w[i - 15], w[i - 16]);
    }
  }

  function RegsOf(h: seq<bv32>): Regs
    requires |h| == 8
  {
    Regs(h[0], h[1], h[2], h[3], h[4], h[5], h[6], h[7])
  }

  /** Sixty-four rounds on eight working variables that are shifted in place. */
  method RunRounds(start: Regs, w: array<bv32>, ghost msg: Bytes, ghost offset: nat) returns (r: Regs)
    requires w.Length == 64 && offset + 64 <= |msg|
    requires forall t | 0 <= t < 64 :: w[t] == Schedule(msg, offset, t)
    ensures r == Rounds(start, msg, offset, 64)
  {
    var a, b, c, d, e, f, g, hh := start.a, start.b, start.c, start.d, start.e, start.f, start.g, start.h;
    for i := 0 to 64
      invariant Regs(a, b, c, d, e, f, g, hh) == Rounds(start, msg, offset, i)
    {
      var t1 := T1(hh, e, f, g, K[i], w[i]);
      var t2 := T2(a, b, c);
      hh := g;
      g := f;
      f := e;
      e := Add(d, t1);
      d := c;
      c := b;
      b := a;
      a := Add(t1, t2);
    }
    r := Regs(a, b, c, d, e, f, g, hh);
  }

  /** The result of the rounds is added into the hash value in place. */
  method CompressBlock(h: array<bv32>, w: array<bv32>, ghost msg: Bytes, ghost offset: nat)
    requires h.Length == 8 && w.Length == 64 && offset + 64 <= |msg|
    requires forall t | 0 <= t < 64 :: w[t] == Schedule(msg, offset, t)
    modifies h
    ensures RegsOf(h[..]) == Compress(old(RegsOf(h[..])), msg, offset)
  {
    var r := RunRounds(RegsOf(h[..]), w, msg, offset);
    h[0], h[1], h[2], h[3], h[4], h[5], h[6], h[7] :=
      Add(h[0], r.a), Add(h[1], r.b), Add(h[2], r.c), Add(h[3], r.d),
      Add(h[4], r.e), Add(h[5], r.f), Add(h[6], r.g), Add(h[7], r.h);
  }

  /** The digest bytes, eight words most significant byte first. */
  method Output(h: array<bv32>) returns (out: array<bv8>)
    requires h.Length == 8
    ensures fresh(out) && out[..] == Digest(RegsOf(h[..]))
  {
    out := new bv8[32](_ => 0);
    for i := 0 to 8
      invariant forall j | 0 <= j < i :: out[4 * j..4 * j + 4] == WordBytes(h[j])
    {
      out[i * 4] := ((h[i] >> 24) & 0xFF) as bv8;
      out[i * 4 + 1] := ((h[i] >> 16) & 0xFF) as bv8;
      out[i * 4 + 2] := ((h[i] >> 8) & 0xFF) as bv8;
      out[i * 4 + 3] := (h[i] & 0xFF) as bv8;
    }
    Eighths(out[..]);
  }

  lemma Eighths(s: Bytes)
    requires |s| == 32
    ensures s == s[0..4] + s[4..8] + s[8..12] + s[12..16] + s[16..20] + s[20..24] + s[24..28] + s[28..32]
  {
  }

  method StartValue() returns (h: array<bv32>)
    ensures fresh(h) && h.Length == 8 && RegsOf(h[..]) == InitialHash
  {
    h := new bv32[8] [0x6a09e667, 0xbb67ae85, 0x3c6ef372, 0xa54ff53a,
                      0x510e527f, 0x9b05688c, 0x1f83d9ab, 0x5be0cd19];
  }

  /** One block: schedule, rounds, addition into the hash value. */
  method Block(h: array<bv32>, w: array<bv32>, msg: array<bv8>, offset: nat)
    requires h.Length == 8 && w.Length == 64 && h != w && offset + 64 <= msg.Length
    modifies h, w
    ensures RegsOf(h[..]) == Compress(old(RegsOf(h[..])), msg[..], offset)
  {
    FillSchedule(msg, offset, w);
    CompressBlock(h, w, msg[..], offset);
  }

  /** The mutable implementation returns the digest of FIPS 180-4. */
  method Hash(data: Bytes) returns (out: array<bv8>)
    requires |data| < TWO_TO_THE_61
    ensures fresh(out) && out[..] == Sha256(data)
  {
    var h := StartValue();
    var msg := PadMessage(data);
    PadLength(data);
    var w := new bv32[64](_ => 0);
    var offset := 0;
    ghost var block := 0;
    while offset < msg.Length
      invariant offset == 64 * block <= msg.Length
      invariant msg[..] == Pad(data)
      invariant RegsOf(h[..]) == HashValue(Pad(data), block)
    {
      Block(h, w, msg, offset);
      offset := offset + 64;
      block := block + 1;
    }
    out := Output(h);
  }

  /** Hashing the digest again. */
  method DoubleHash(data: Bytes) returns (out: array<bv8>)
    requires |data| < TWO_TO_THE_61
    ensures fresh(out) && out[..] == Sha256(Sha256(data))
  {
    var first := Hash(data);
    out := Hash(first[..]);
  }
}
