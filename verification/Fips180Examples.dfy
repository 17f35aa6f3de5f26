/**
 The worked examples of SHA-256 published with FIPS 180: the digest of "abc" and that of a
 message of two blocks, followed through the schedule and eight rounds at a time.
 */
module Fips180Examples {
  import opened Arithmetic
  import opened Fips180
  import opened Fips180Constants

  /** Eight words of the schedule, from the one numbered `t`. */
  predicate Words(msg: Bytes, offset: nat, t: nat,
                  w0: bv32, w1: bv32, w2: bv32, w3: bv32, w4: bv32, w5: bv32, w6: bv32, w7: bv32)
    requires offset + 64 <= |msg|
  {
    && Schedule(msg, offset, t) == w0 && Schedule(msg, offset, t + 1) == w1
    && Schedule(msg, offset, t + 2) == w2 && Schedule(msg, offset, t + 3) == w3
    && Schedule(msg, offset, t + 4) == w4 && Schedule(msg, offset, t + 5) == w5
    && Schedule(msg, offset, t + 6) == w6 && Schedule(msg, offset, t + 7) == w7
  }

  lemma Expands(msg: Bytes, offset: nat, t: nat)
    requires offset + 64 <= |msg| && 16 <= t
    ensures Schedule(msg, offset, t) == Expand(Schedule(msg, offset, t - 2), Schedule(msg, offset, t - 7),
                                               Schedule(msg, offset, t - 15), Schedule(msg, offset, t - 16))
  {
  }

  /** A round moves six of the registers on and computes two. */
  function Shift(r: Regs, a: bv32, e: bv32): Regs { Regs(a, r.a, r.b, r.c, e, r.e, r.f, r.g) }

  lemma Step(h: Regs, msg: Bytes, offset: nat, t: nat, r: Regs, a: bv32, e: bv32) returns (next: Regs)
    requires offset + 64 <= |msg| && t < 64
    requires Rounds(h, msg, offset, t) == r && Round(r, K[t], Schedule(msg, offset, t)) == Shift(r, a, e)
    ensures next == Shift(r, a, e) && Rounds(h, msg, offset, t + 1) == next
  {
    next := Shift(r, a, e);
  }

  // ----- the block of "abc" -----

  predicate AbcBlock(msg: Bytes, offset: nat)
    requires offset + 64 <= |msg|
  {
    && Words(msg, offset, 0, 0x61626380, 0x00000000, 0x00000000, 0x00000000,
                             0x00000000, 0x00000000, 0x00000000, 0x00000000)
    && Words(msg, offset, 8, 0x00000000, 0x00000000, 0x00000000, 0x00000000,
                             0x00000000, 0x00000000, 0x00000000, 0x00000018)
  }

  lemma {:induction false} AbcWords16(msg: Bytes, offset: nat)
    requires offset + 64 <= |msg| && AbcBlock(msg, offset)
    ensures Words(msg, offset, 16, 0x61626380, 0x000f0000, 0x7da86405, 0x600003c6,
                                   0x3e9d7b78, 0x0183fc00, 0x12dcbfdb, 0xe2e2c38e)
    ensures Words(msg, offset, 24, 0xc8215c1a, 0xb73679a2, 0xe5bc3909, 0x32663c5b,
                                   0x9d209d67, 0xec8726cb, 0x702138a4, 0xd3b7973b)
  {
    Expands(msg, offset, 16); Expands(msg, offset, 17); Expands(msg, offset, 18); Expands(msg, offset, 19);
    Expands(msg, offset, 20); Expands(msg, offset, 21); Expands(msg, offset, 22); Expands(msg, offset, 23);
    Expands(msg, offset, 24); Expands(msg, offset, 25); Expands(msg, offset, 26); Expands(msg, offset, 27);
    Expands(msg, offset, 28); Expands(msg, offset, 29); Expands(msg, offset, 30); Expands(msg, offset, 31);
  }

  lemma {:induction false} AbcWords32(msg: Bytes, offset: nat)
    requires offset + 64 <= |msg| && AbcBlock(msg, offset)
    ensures Words(msg, offset, 32, 0x93f5997f, 0x3b68ba73, 0xaff4ffc1, 0xf10a5c62,
                                   0x0a8b3996, 0x72af830a, 0x9409e33e, 0x24641522)
    ensures Words(msg, offset, 40, 0x9f47bf94, 0xf0a64f5a, 0x3e246a79, 0x27333ba3,
                                   0x0c4763f2, 0x840abf27, 0x7a290d5d, 0x065c43da)
  {
    AbcWords16(msg, offset);
    Expands(msg, offset, 32); Expands(msg, offset, 33); Expands(msg, offset, 34); Expands(msg, offset, 35);
    Expands(msg, offset, 36); Expands(msg, offset, 37); Expands(msg, offset, 38); Expands(msg, offset, 39);
    Expands(msg, offset, 40); Expands(msg, offset, 41); Expands(msg, offset, 42); Expands(msg, offset, 43);
    Expands(msg, offset, 44); Expands(msg, offset, 45); Expands(msg, offset, 46); Expands(msg, offset, 47);
  }

  lemma {:induction false} AbcWords48(msg: Bytes, offset: nat)
    requires offset + 64 <= |msg| && AbcBlock(msg, offset)
    ensures Words(msg, offset, 48, 0xfb3e89cb, 0xcc7617db, 0xb9e66c34, 0xa9993667,
                                   0x84badedd, 0xc21462bc, 0x1487472c, 0xb20f7a99)
    ensures Words(msg, offset, 56, 0xef57b9cd, 0xebe6b238, 0x9fe3095e, 0x78bc8d4b,
                                   0xa43fcf15, 0x668b2ff8, 0xeeaba2cc, 0x12b1edeb)
  {
    AbcWords32(msg, offset);
    Expands(msg, offset, 48); Expands(msg, offset, 49); Expands(msg, offset, 50); Expands(msg, offset, 51);
    Expands(msg, offset, 52); Expands(msg, offset, 53); Expands(msg, offset, 54); Expands(msg, offset, 55);
    Expands(msg, offset, 56); Expands(msg, offset, 57); Expands(msg, offset, 58); Expands(msg, offset, 59);
    Expands(msg, offset, 60); Expands(msg, offset, 61); Expands(msg, offset, 62); Expands(msg, offset, 63);
  }

  lemma {:induction false} AbcRounds8(msg: Bytes, offset: nat)
    requires offset + 64 <= |msg| && AbcBlock(msg, offset)
    ensures Rounds(InitialHash, msg, offset, 8)
         == Regs(0x85a07b5f, 0xe5030380, 0x2b4209f5, 0x04409a6a, 0x0c657a79, 0x9b27a401, 0x714260ad, 0x43ada245)
  {
    Constants0();
    var h, r := InitialHash, InitialHash;
    r := Step(h, msg, offset, 0, r, 0x5d6aebcd, 0xfa2a4622); r := Step(h, msg, offset, 1, r, 0x5a6ad9ad, 0x78ce7989);
    r := Step(h, msg, offset, 2, r, 0xc8c347a7, 0xf92939eb); r := Step(h, msg, offset, 3, r, 0xd550f666, 0x24e00850);
    r := Step(h, msg, offset, 4, r, 0x04409a6a, 0x43ada245); r := Step(h, msg, offset, 5, r, 0x2b4209f5, 0x714260ad);
    r := Step(h, msg, offset, 6, r, 0xe5030380, 0x9b27a401); r := Step(h, msg, offset, 7, r, 0x85a07b5f, 0x0c657a79);
  }

  lemma {:induction false} AbcRounds16(msg: Bytes, offset: nat)
    requires offset + 64 <= |msg| && AbcBlock(msg, offset)
    ensures Rounds(InitialHash, msg, offset, 16)
         == Regs(0xb0fa238e, 0xc0645fde, 0xd932eb16, 0x87912990, 0x07590dcd, 0x0b92f20c, 0x745a48de, 0x1e578218)
  {
    AbcRounds8(msg, offset);
    Constants8();
    var h := InitialHash;
    var r := Regs(0x85a07b5f, 0xe5030380, 0x2b4209f5, 0x04409a6a, 0x0c657a79, 0x9b27a401, 0x714260ad, 0x43ada245);
    r := Step(h, msg, offset, 8, r, 0x8e04ecb9, 0x32ca2d8c); r := Step(h, msg, offset, 9, r, 0x8c87346b, 0x1cc92596);
    r := Step(h, msg, offset, 10, r, 0x4798a3f4, 0x436b23e8); r := Step(h, msg, offset, 11, r, 0xf71fc5a9, 0x816fd6e9);
    r := Step(h, msg, offset, 12, r, 0x87912990, 0x1e578218); r := Step(h, msg, offset, 13, r, 0xd932eb16, 0x745a48de);
    r := Step(h, msg, offset, 14, r, 0xc0645fde, 0x0b92f20c); r := Step(h, msg, offset, 15, r, 0xb0fa238e, 0x07590dcd);
  }

  lemma {:induction false} AbcRounds24(msg: Bytes, offset: nat)
    requires offset + 64 <= |msg| && AbcBlock(msg, offset)
    ensures Rounds(InitialHash, msg, offset, 24)
         == Regs(0xc5d53d8d, 0xa7a3623f, 0xc2606d6d, 0x9dc68b63, 0xaa47c347, 0x49f5114a, 0xe1257970, 0x8ada8930)
  {
    AbcRounds16(msg, offset);
    AbcWords16(msg, offset);
    Constants16();
    var h := InitialHash;
    var r := Regs(0xb0fa238e, 0xc0645fde, 0xd932eb16, 0x87912990, 0x07590dcd, 0x0b92f20c, 0x745a48de, 0x1e578218);
    r := Step(h, msg, offset, 16, r, 0x21da9a9b, 0x8034229c); r := Step(h, msg, offset, 17, r, 0xc2fbd9d1, 0x846ee454);
    r := Step(h, msg, offset, 18, r, 0xfe777bbf, 0xcc899961); r := Step(h, msg, offset, 19, r, 0xe1f20c33, 0xb0638179);
    r := Step(h, msg, offset, 20, r, 0x9dc68b63, 0x8ada8930); r := Step(h, msg, offset, 21, r, 0xc2606d6d, 0xe1257970);
    r := Step(h, msg, offset, 22, r, 0xa7a3623f, 0x49f5114a); r := Step(h, msg, offset, 23, r, 0xc5d53d8d, 0xaa47c347);
  }

  lemma {:induction false} AbcRounds32(msg: Bytes, offset: nat)
    requires offset + 64 <= |msg| && AbcBlock(msg, offset)
    ensures Rounds(InitialHash, msg, offset, 32)
         == Regs(0x73b33bf5, 0xea992a22, 0xa0060b30, 0x363482c9, 0xba591112, 0x0109ab3a, 0xade79437, 0x6112a3b7)
  {
    AbcRounds24(msg, offset);
    AbcWords16(msg, offset);
    Constants24();
    var h := InitialHash;
    var r := Regs(0xc5d53d8d, 0xa7a3623f, 0xc2606d6d, 0x9dc68b63, 0xaa47c347, 0x49f5114a, 0xe1257970, 0x8ada8930);
    r := Step(h, msg, offset, 24, r, 0x1c2c2838, 0x2823ef91); r := Step(h, msg, offset, 25, r, 0xcde8037d, 0x14383d8e);
    r := Step(h, msg, offset, 26, r, 0xb62ec4bc, 0xc74c6516); r := Step(h, msg, offset, 27, r, 0x77d37528, 0xedffbff8);
    r := Step(h, msg, offset, 28, r, 0x363482c9, 0x6112a3b7); r := Step(h, msg, offset, 29, r, 0xa0060b30, 0xade79437);
    r := Step(h, msg, offset, 30, r, 0xea992a22, 0x0109ab3a); r := Step(h, msg, offset, 31, r, 0x73b33bf5, 0xba591112);
  }

  lemma {:induction false} AbcRounds40(msg: Bytes, offset: nat)
    requires offset + 64 <= |msg| && AbcBlock(msg, offset)
    ensures Rounds(InitialHash, msg, offset, 40)
         == Regs(0x79ea687a, 0x6dc57a8a, 0x34df1604, 0x41a65cb1, 0x1efbc0a0, 0xf0781bc8, 0xa507a53d, 0x0772a26b)
  {
    AbcRounds32(msg, offset);
    AbcWords32(msg, offset);
    Constants32();
    var h := InitialHash;
    var r := Regs(0x73b33bf5, 0xea992a22, 0xa0060b30, 0x363482c9, 0xba591112, 0x0109ab3a, 0xade79437, 0x6112a3b7);
    r := Step(h, msg, offset, 32, r, 0x98e12507, 0x9cd9f5f6); r := Step(h, msg, offset, 33, r, 0xfe604df5, 0x59249dd3);
    r := Step(h, msg, offset, 34, r, 0xa9a7738c, 0x085f3833); r := Step(h, msg, offset, 35, r, 0x65a0cfe4, 0xf4b002d6);
    r := Step(h, msg, offset, 36, r, 0x41a65cb1, 0x0772a26b); r := Step(h, msg, offset, 37, r, 0x34df1604, 0xa507a53d);
    r := Step(h, msg, offset, 38, r, 0x6dc57a8a, 0xf0781bc8); r := Step(h, msg, offset, 39, r, 0x79ea687a, 0x1efbc0a0);
  }

  lemma {:induction false} AbcRounds48(msg: Bytes, offset: nat)
    requires offset + 64 <= |msg| && AbcBlock(msg, offset)
    ensures Rounds(InitialHash, msg, offset, 48)
         == Regs(0x4172328d, 0xa14c14b0, 0x72ab4b91, 0x26628815, 0xfecf0bc6, 0xd57b94a9, 0xb7755da1, 0xa80f11f0)
  {
    AbcRounds40(msg, offset);
    AbcWords32(msg, offset);
    Constants40();
    var h := InitialHash;
    var r := Regs(0x79ea687a, 0x6dc57a8a, 0x34df1604, 0x41a65cb1, 0x1efbc0a0, 0xf0781bc8, 0xa507a53d, 0x0772a26b);
    r := Step(h, msg, offset, 40, r, 0xd6670766, 0x26352d63); r := Step(h, msg, offset, 41, r, 0xdf46652f, 0x838b2711);
    r := Step(h, msg, offset, 42, r, 0x17aa0dfe, 0xdecd4715); r := Step(h, msg, offset, 43, r, 0x9d4baf93, 0xfda24c2e);
    r := Step(h, msg, offset, 44, r, 0x26628815, 0xa80f11f0); r := Step(h, msg, offset, 45, r, 0x72ab4b91, 0xb7755da1);
    r := Step(h, msg, offset, 46, r, 0xa14c14b0, 0xd57b94a9); r := Step(h, msg, offset, 47, r, 0x4172328d, 0xfecf0bc6);
  }

  lemma {:induction false} AbcRounds56(msg: Bytes, offset: nat)
    requires offset + 64 <= |msg| && AbcBlock(msg, offset)
    ensures Rounds(InitialHash, msg, offset, 56)
         == Regs(0x38cc9913, 0x3ec45cdb, 0xf5702fdb, 0x101fd28f, 0x54cb266b, 0xe50e1b4f, 0x9f4787c3, 0x529e7d00)
  {
    AbcRounds48(msg, offset);
    AbcWords48(msg, offset);
    Constants48();
    var h := InitialHash;
    var r := Regs(0x4172328d, 0xa14c14b0, 0x72ab4b91, 0x26628815, 0xfecf0bc6, 0xd57b94a9, 0xb7755da1, 0xa80f11f0);
    r := Step(h, msg, offset, 48, r, 0x05757ceb, 0xbd714038); r := Step(h, msg, offset, 49, r, 0xf11bfaa8, 0x6e5c390c);
    r := Step(h, msg, offset, 50, r, 0x7a0508a1, 0x52f1ccf7); r := Step(h, msg, offset, 51, r, 0x886e7a22, 0x49231c1e);
    r := Step(h, msg, offset, 52, r, 0x101fd28f, 0x529e7d00); r := Step(h, msg, offset, 53, r, 0xf5702fdb, 0x9f4787c3);
    r := Step(h, msg, offset, 54, r, 0x3ec45cdb, 0xe50e1b4f); r := Step(h, msg, offset, 55, r, 0x38cc9913, 0x54cb266b);
  }

  lemma {:induction false} AbcRounds64(msg: Bytes, offset: nat)
    requires offset + 64 <= |msg| && AbcBlock(msg, offset)
    ensures Rounds(InitialHash, msg, offset, 64)
         == Regs(0x506e3058, 0xd39a2165, 0x04d24d6c, 0xb85e2ce9, 0x5ef50f24, 0xfb121210, 0x948d25b6, 0x961f4894)
  {
    AbcRounds56(msg, offset);
    AbcWords48(msg, offset);
    Constants56();
    var h := InitialHash;
    var r := Regs(0x38cc9913, 0x3ec45cdb, 0xf5702fdb, 0x101fd28f, 0x54cb266b, 0xe50e1b4f, 0x9f4787c3, 0x529e7d00);
    r := Step(h, msg, offset, 56, r, 0xfcd1887b, 0x9b5e906c); r := Step(h, msg, offset, 57, r, 0xc062d46f, 0x7e44008e);
    r := Step(h, msg, offset, 58, r, 0xffb70472, 0x6d83bfc6); r := Step(h, msg, offset, 59, r, 0xb6ae8fff, 0xb21bad3d);
    r := Step(h, msg, offset, 60, r, 0xb85e2ce9, 0x961f4894); r := Step(h, msg, offset, 61, r, 0x04d24d6c, 0x948d25b6);
    r := Step(h, msg, offset, 62, r, 0xd39a2165, 0xfb121210); r := Step(h, msg, offset, 63, r, 0x506e3058, 0x5ef50f24);
  }

  lemma {:induction false} AbcCompresses(msg: Bytes, offset: nat)
    requires offset + 64 <= |msg| && AbcBlock(msg, offset)
    ensures Compress(InitialHash, msg, offset)
         == Regs(0xba7816bf, 0x8f01cfea, 0x414140de, 0x5dae2223, 0xb00361a3, 0x96177a9c, 0xb410ff61, 0xf20015ad)
  {
    AbcRounds64(msg, offset);
  }

  // ----- the first of the two blocks -----

  predicate FrontBlock(msg: Bytes, offset: nat)
    requires offset + 64 <= |msg|
  {
    && Words(msg, offset, 0, 0x61626364, 0x62636465, 0x63646566, 0x64656667,
                             0x65666768, 0x66676869, 0x6768696a, 0x68696a6b)
    && Words(msg, offset, 8, 0x696a6b6c, 0x6a6b6c6d, 0x6b6c6d6e, 0x6c6d6e6f,
                             0x6d6e6f70, 0x6e6f7071, 0x80000000, 0x00000000)
  }

  lemma {:induction false} FrontWords16(msg: Bytes, offset: nat)
    requires offset + 64 <= |msg| && FrontBlock(msg, offset)
    ensures Words(msg, offset, 16, 0xeb8012ad, 0xa7c3ae92, 0x76e93ba2, 0xba42e743,
                                   0x92a92204, 0xd847e75e, 0x9e160036, 0xb280a7cb)
    ensures Words(msg, offset, 24, 0xddeb1516, 0xf36586f4, 0x969cd048, 0xe959d99d,
                                   0x6accc0ec, 0xf54cb098, 0x2af1b2da, 0xee59c4c9)
  {
    Expands(msg, offset, 16); Expands(msg, offset, 17); Expands(msg, offset, 18); Expands(msg, offset, 19);
    Expands(msg, offset, 20); Expands(msg, offset, 21); Expands(msg, offset, 22); Expands(msg, offset, 23);
    Expands(msg, offset, 24); Expands(msg, offset, 25); Expands(msg, offset, 26); Expands(msg, offset, 27);
    Expands(msg, offset, 28); Expands(msg, offset, 29); Expands(msg, offset, 30); Expands(msg, offset, 31);
  }

  lemma {:induction false} FrontWords32(msg: Bytes, offset: nat)
    requires offset + 64 <= |msg| && FrontBlock(msg, offset)
    ensures Words(msg, offset, 32, 0xa835e16a, 0x1dff4429, 0xd6e15959, 0xc397cd6e,
                                   0x6f1801ca, 0x21574205, 0x35ff7a84, 0x9743ee78)
    ensures Words(msg, offset, 40, 0xe44183e7, 0x0d09f00d, 0x9c89af54, 0x042d5bef,
                                   0x71f134d0, 0x0f94f463, 0x7e49dc63, 0x6f65c997)
  {
    FrontWords16(msg, offset);
    Expands(msg, offset, 32); Expands(msg, offset, 33); Expands(msg, offset, 34); Expands(msg, offset, 35);
    Expands(msg, offset, 36); Expands(msg, offset, 37); Expands(msg, offset, 38); Expands(msg, offset, 39);
    Expands(msg, offset, 40); Expands(msg, offset, 41); Expands(msg, offset, 42); Expands(msg, offset, 43);
    Expands(msg, offset, 44); Expands(msg, offset, 45); Expands(msg, offset, 46); Expands(msg, offset, 47);
  }

  lemma {:induction false} FrontWords48(msg: Bytes, offset: nat)
    requires offset + 64 <= |msg| && FrontBlock(msg, offset)
    ensures Words(msg, offset, 48, 0x0b706583, 0x179312ca, 0x503054e9, 0xba125c39,
                                   0x7e9392c9, 0xd5cbaa1e, 0x78e0585d, 0xf6e7611c)
    ensures Words(msg, offset, 56, 0x8ac830ce, 0x8b47a303, 0xfd6e627f, 0x8c6e2c6a,
                                   0x4001adf1, 0x1a3dd097, 0xa9df6f62, 0x6aa60a39)
  {
    FrontWords32(msg, offset);
    Expands(msg, offset, 48); Expands(msg, offset, 49); Expands(msg, offset, 50); Expands(msg, offset, 51);
    Expands(msg, offset, 52); Expands(msg, offset, 53); Expands(msg, offset, 54); Expands(msg, offset, 55);
    Expands(msg, offset, 56); Expands(msg, offset, 57); Expands(msg, offset, 58); Expands(msg, offset, 59);
    Expands(msg, offset, 60); Expands(msg, offset, 61); Expands(msg, offset, 62); Expands(msg, offset, 63);
  }

  lemma {:induction false} FrontRounds8(msg: Bytes, offset: nat)
    requires offset + 64 <= |msg| && FrontBlock(msg, offset)
    ensures Rounds(InitialHash, msg, offset, 8)
         == Regs(0xd237e6db, 0x485835b7, 0x55c8ef48, 0xf921c212, 0xa401d211, 0x39a5b2ca, 0x7ff91c94, 0x05c4f88a)
  {
    Constants0();
    var h, r := InitialHash, InitialHash;
    r := Step(h, msg, offset, 0, r, 0x5d6aebb1, 0xfa2a4606); r := Step(h, msg, offset, 1, r, 0x2f2d5fcf, 0x4eb1cfce);
    r := Step(h, msg, offset, 2, r, 0x97651825, 0x62d5c49e); r := Step(h, msg, offset, 3, r, 0x4a8d64d5, 0x6494841b);
    r := Step(h, msg, offset, 4, r, 0xf921c212, 0x05c4f88a); r := Step(h, msg, offset, 5, r, 0x55c8ef48, 0x7ff91c94);
    r := Step(h, msg, offset, 6, r, 0x485835b7, 0x39a5b2ca); r := Step(h, msg, offset, 7, r, 0xd237e6db, 0xa401d211);
  }

  lemma {:induction false} FrontRounds16(msg: Bytes, offset: nat)
    requires offset + 64 <= |msg| && FrontBlock(msg, offset)
    ensures Rounds(InitialHash, msg, offset, 16)
         == Regs(0xc3486194, 0xdd16cbb3, 0xd68e6457, 0x101a4861, 0x1496a54f, 0x9162aded, 0x9243f8af, 0x839a0fc9)
  {
    FrontRounds8(msg, offset);
    Constants8();
    var h := InitialHash;
    var r := Regs(0xd237e6db, 0x485835b7, 0x55c8ef48, 0xf921c212, 0xa401d211, 0x39a5b2ca, 0x7ff91c94, 0x05c4f88a);
    r := Step(h, msg, offset, 8, r, 0x359f2bce, 0xc09ffec4); r := Step(h, msg, offset, 9, r, 0x3a474b2b, 0x9037b3b8);
    r := Step(h, msg, offset, 10, r, 0xb8e2b4cb, 0x443ed29e); r := Step(h, msg, offset, 11, r, 0x1762215c, 0xee1c97a8);
    r := Step(h, msg, offset, 12, r, 0x101a4861, 0x839a0fc9); r := Step(h, msg, offset, 13, r, 0xd68e6457, 0x9243f8af);
    r := Step(h, msg, offset, 14, r, 0xdd16cbb3, 0x9162aded); r := Step(h, msg, offset, 15, r, 0xc3486194, 0x1496a54f);
  }

  lemma {:induction false} FrontRounds24(msg: Bytes, offset: nat)
    requires offset + 64 <= |msg| && FrontBlock(msg, offset)
    ensures Rounds(InitialHash, msg, offset, 24)
         == Regs(0x59fce6b9, 0xae2e2d4f, 0x1b2b66b8, 0xd70ac17d, 0xa2c7d51d, 0xf074fc95, 0xd560b028, 0x7cc6b262)
  {
    FrontRounds16(msg, offset);
    FrontWords16(msg, offset);
    Constants16();
    var h := InitialHash;
    var r := Regs(0xc3486194, 0xdd16cbb3, 0xd68e6457, 0x101a4861, 0x1496a54f, 0x9162aded, 0x9243f8af, 0x839a0fc9);
    r := Step(h, msg, offset, 16, r, 0xb9dcacb1, 0xd4f64250); r := Step(h, msg, offset, 17, r, 0x046a193e, 0x885370b6);
    r := Step(h, msg, offset, 18, r, 0xf402f058, 0x6f433549); r := Step(h, msg, offset, 19, r, 0x2139187b, 0x7c304206);
    r := Step(h, msg, offset, 20, r, 0xd70ac17d, 0x7cc6b262); r := Step(h, msg, offset, 21, r, 0x1b2b66b8, 0xd560b028);
    r := Step(h, msg, offset, 22, r, 0xae2e2d4f, 0xf074fc95); r := Step(h, msg, offset, 23, r, 0x59fce6b9, 0xa2c7d51d);
  }

  lemma {:induction false} FrontRounds32(msg: Bytes, offset: nat)
    requires offset + 64 <= |msg| && FrontBlock(msg, offset)
    ensures Rounds(InitialHash, msg, offset, 32)
         == Regs(0x5581ab07, 0xeb43f3ed, 0xdf7151a0, 0x74bcf468, 0xdf980085, 0x0635d880, 0x7629c961, 0x72abaecd)
  {
    FrontRounds24(msg, offset);
    FrontWords16(msg, offset);
    Constants24();
    var h := InitialHash;
    var r := Regs(0x59fce6b9, 0xae2e2d4f, 0x1b2b66b8, 0xd70ac17d, 0xa2c7d51d, 0xf074fc95, 0xd560b028, 0x7cc6b262);
    r := Step(h, msg, offset, 24, r, 0x4a885065, 0x763597fb); r := Step(h, msg, offset, 25, r, 0x573221da, 0x36e74eb4);
    r := Step(h, msg, offset, 26, r, 0x128661da, 0x1162d575); r := Step(h, msg, offset, 27, r, 0x73f858af, 0xe77c797f);
    r := Step(h, msg, offset, 28, r, 0x74bcf468, 0x72abaecd); r := Step(h, msg, offset, 29, r, 0xdf7151a0, 0x7629c961);
    r := Step(h, msg, offset, 30, r, 0xeb43f3ed, 0x0635d880); r := Step(h, msg, offset, 31, r, 0x5581ab07, 0xdf980085);
  }

  lemma {:induction false} FrontRounds40(msg: Bytes, offset: nat)
    requires offset + 64 <= |msg| && FrontBlock(msg, offset)
    ensures Rounds(InitialHash, msg, offset, 40)
         == Regs(0x7e4d30b8, 0x91ac9d5d, 0xa985b4be, 0x2c55d3a6, 0x9f5b9b6d, 0x68d8d590, 0xf72bf353, 0xb067c1af)
  {
    FrontRounds32(msg, offset);
    FrontWords32(msg, offset);
    Constants32();
    var h := InitialHash;
    var r := Regs(0x5581ab07, 0xeb43f3ed, 0xdf7151a0, 0x74bcf468, 0xdf980085, 0x0635d880, 0x7629c961, 0x72abaecd);
    r := Step(h, msg, offset, 32, r, 0x9fc905c8, 0xa94d2af1); r := Step(h, msg, offset, 33, r, 0x9ce5a62f, 0x6ef3b6bd);
    r := Step(h, msg, offset, 34, r, 0x1df8e885, 0x2a9e048e); r := Step(h, msg, offset, 35, r, 0x0786dce8, 0xde2a21d1);
    r := Step(h, msg, offset, 36, r, 0x2c55d3a6, 0xb067c1af); r := Step(h, msg, offset, 37, r, 0xa985b4be, 0xf72bf353);
    r := Step(h, msg, offset, 38, r, 0x91ac9d5d, 0x68d8d590); r := Step(h, msg, offset, 39, r, 0x7e4d30b8, 0x9f5b9b6d);
  }

  lemma {:induction false} FrontRounds48(msg: Bytes, offset: nat)
    requires offset + 64 <= |msg| && FrontBlock(msg, offset)
    ensures Rounds(InitialHash, msg, offset, 48)
         == Regs(0x13d82741, 0x165be9cd, 0x18f0d19d, 0xde71e2f2, 0xa7802a4d, 0xa483f080, 0x6b88472c, 0xff61c636)
  {
    FrontRounds40(msg, offset);
    FrontWords32(msg, offset);
    Constants40();
    var h := InitialHash;
    var r := Regs(0x7e4d30b8, 0x91ac9d5d, 0xa985b4be, 0x2c55d3a6, 0x9f5b9b6d, 0x68d8d590, 0xf72bf353, 0xb067c1af);
    r := Step(h, msg, offset, 40, r, 0x7e056794, 0x423b26c0); r := Step(h, msg, offset, 41, r, 0x508a16ab, 0x45459d97);
    r := Step(h, msg, offset, 42, r, 0xb62c7013, 0x80a92a00); r := Step(h, msg, offset, 43, r, 0x167361de, 0x41dd3844);
    r := Step(h, msg, offset, 44, r, 0xde71e2f2, 0xff61c636); r := Step(h, msg, offset, 45, r, 0x18f0d19d, 0x6b88472c);
    r := Step(h, msg, offset, 46, r, 0x165be9cd, 0xa483f080); r := Step(h, msg, offset, 47, r, 0x13d82741, 0xa7802a4d);
  }

  lemma {:induction false} FrontRounds56(msg: Bytes, offset: nat)
    requires offset + 64 <= |msg| && FrontBlock(msg, offset)
    ensures Rounds(InitialHash, msg, offset, 56)
         == Regs(0x9e57c4a0, 0xf907b313, 0x1d6de87a, 0xb8d55619, 0xeec13548, 0x61a41711, 0x3443bed4, 0x1c806a61)
  {
    FrontRounds48(msg, offset);
    FrontWords48(msg, offset);
    Constants48();
    var h := InitialHash;
    var r := Regs(0x13d82741, 0x165be9cd, 0x18f0d19d, 0xde71e2f2, 0xa7802a4d, 0xa483f080, 0x6b88472c, 0xff61c636);
    r := Step(h, msg, offset, 48, r, 0x017b9d99, 0xaeb10b60); r := Step(h, msg, offset, 49, r, 0x543c99a1, 0x16f134b6);
    r := Step(h, msg, offset, 50, r, 0x758ca97a, 0x100cf2ea); r := Step(h, msg, offset, 51, r, 0x81c1cde0, 0x5c47eb7b);
    r := Step(h, msg, offset, 52, r, 0xb8d55619, 0x1c806a61); r := Step(h, msg, offset, 53, r, 0x1d6de87a, 0x3443bed4);
    r := Step(h, msg, offset, 54, r, 0xf907b313, 0x61a41711); r := Step(h, msg, offset, 55, r, 0x9e57c4a0, 0xeec13548);
  }

  lemma {:induction false} FrontRounds64(msg: Bytes, offset: nat)
    requires offset + 64 <= |msg| && FrontBlock(msg, offset)
    ensures Rounds(InitialHash, msg, offset, 64)
         == Regs(0x1bdc6f6f, 0x86126910, 0xf6f443f8, 0xbcfce922, 0x25d2430a, 0x2fc08f85, 0xacc75916, 0x962d8621)
  {
    FrontRounds56(msg, offset);
    FrontWords48(msg, offset);
    Constants56();
    var h := InitialHash;
    var r := Regs(0x9e57c4a0, 0xf907b313, 0x1d6de87a, 0xb8d55619, 0xeec13548, 0x61a41711, 0x3443bed4, 0x1c806a61);
    r := Step(h, msg, offset, 56, r, 0x71629856, 0x2f6c8c4e); r := Step(h, msg, offset, 57, r, 0x7c015a2c, 0xcb9d3dd0);
    r := Step(h, msg, offset, 58, r, 0x921fccb6, 0x43d8a034); r := Step(h, msg, offset, 59, r, 0xe18f259a, 0x51e15869);
    r := Step(h, msg, offset, 60, r, 0xbcfce922, 0x962d8621); r := Step(h, msg, offset, 61, r, 0xf6f443f8, 0xacc75916);
    r := Step(h, msg, offset, 62, r, 0x86126910, 0x2fc08f85); r := Step(h, msg, offset, 63, r, 0x1bdc6f6f, 0x25d2430a);
  }

  lemma {:induction false} FrontCompresses(msg: Bytes, offset: nat)
    requires offset + 64 <= |msg| && FrontBlock(msg, offset)
    ensures Compress(InitialHash, msg, offset)
         == Regs(0x85e655d6, 0x417a1795, 0x3363376a, 0x624cde5c, 0x76e09589, 0xcac5f811, 0xcc4b32c1, 0xf20e533a)
  {
    FrontRounds64(msg, offset);
  }

  const MIDWAY := Regs(0x85e655d6, 0x417a1795, 0x3363376a, 0x624cde5c,
                       0x76e09589, 0xcac5f811, 0xcc4b32c1, 0xf20e533a)

  // ----- the second of the two blocks -----

  predicate BackBlock(msg: Bytes, offset: nat)
    requires offset + 64 <= |msg|
  {
    && Words(msg, offset, 0, 0x00000000, 0x00000000, 0x00000000, 0x00000000,
                             0x00000000, 0x00000000, 0x00000000, 0x00000000)
    && Words(msg, offset, 8, 0x00000000, 0x00000000, 0x00000000, 0x00000000,
                             0x00000000, 0x00000000, 0x00000000, 0x000001c0)
  }

  lemma {:induction false} BackWords16(msg: Bytes, offset: nat)
    requires offset + 64 <= |msg| && BackBlock(msg, offset)
    ensures Words(msg, offset, 16, 0x00000000, 0x00d80000, 0x00000000, 0x00003677,
                                   0x00000000, 0x1df5600d, 0x000001c0, 0x1c00501c)
    ensures Words(msg, offset, 24, 0x01b00000, 0x220a8d94, 0x0000a365, 0x177017e7,
                                   0x63d38035, 0x090ab713, 0x4c7539ca, 0x0f19a8c9)
  {
    Expands(msg, offset, 16); Expands(msg, offset, 17); Expands(msg, offset, 18); Expands(msg, offset, 19);
    Expands(msg, offset, 20); Expands(msg, offset, 21); Expands(msg, offset, 22); Expands(msg, offset, 23);
    Expands(msg, offset, 24); Expands(msg, offset, 25); Expands(msg, offset, 26); Expands(msg, offset, 27);
    Expands(msg, offset, 28); Expands(msg, offset, 29); Expands(msg, offset, 30); Expands(msg, offset, 31);
  }

  lemma {:induction false} BackWords32(msg: Bytes, offset: nat)
    requires offset + 64 <= |msg| && BackBlock(msg, offset)
    ensures Words(msg, offset, 32, 0x5df4b0c4, 0xe257036a, 0xc97bb6f1, 0xc5b46f4d,
                                   0xf8253c4e, 0xa558d189, 0x78696285, 0xed07117f)
    ensures Words(msg, offset, 40, 0x107358f6, 0x390ae496, 0x565010a2, 0xc51d7d44,
                                   0x9e74c972, 0x6614b561, 0x30fc129d, 0x9ac684a8)
  {
    BackWords16(msg, offset);
    Expands(msg, offset, 32); Expands(msg, offset, 33); Expands(msg, offset, 34); Expands(msg, offset, 35);
    Expands(msg, offset, 36); Expands(msg, offset, 37); Expands(msg, offset, 38); Expands(msg, offset, 39);
    Expands(msg, offset, 40); Expands(msg, offset, 41); Expands(msg, offset, 42); Expands(msg, offset, 43);
    Expands(msg, offset, 44); Expands(msg, offset, 45); Expands(msg, offset, 46); Expands(msg, offset, 47);
  }

  lemma {:induction false} BackWords48(msg: Bytes, offset: nat)
    requires offset + 64 <= |msg| && BackBlock(msg, offset)
    ensures Words(msg, offset, 48, 0x2b658dbd, 0xe290f793, 0x9eebb24c, 0x9713b5de,
                                   0x41061ab7, 0xe022e23b, 0x0772079e, 0x7de22d9c)
    ensures Words(msg, offset, 56, 0xc8b83778, 0x75a79849, 0xd93dbddb, 0x0a036c9d,
                                   0xcb4f6ac6, 0x823f97e2, 0xea2f2a7a, 0xb9018b52)
  {
    BackWords32(msg, offset);
    Expands(msg, offset, 48); Expands(msg, offset, 49); Expands(msg, offset, 50); Expands(msg, offset, 51);
    Expands(msg, offset, 52); Expands(msg, offset, 53); Expands(msg, offset, 54); Expands(msg, offset, 55);
    Expands(msg, offset, 56); Expands(msg, offset, 57); Expands(msg, offset, 58); Expands(msg, offset, 59);
    Expands(msg, offset, 60); Expands(msg, offset, 61); Expands(msg, offset, 62); Expands(msg, offset, 63);
  }

  lemma {:induction false} BackRounds8(msg: Bytes, offset: nat)
    requires offset + 64 <= |msg| && BackBlock(msg, offset)
    ensures Rounds(MIDWAY, msg, offset, 8)
         == Regs(0xbf9a93a0, 0x89bba3f1, 0x3eeb6c06, 0x185a5d79, 0x059abdd1, 0x0a34df03, 0xfe20cda6, 0x8dff3001)
  {
    Constants0();
    var h, r := MIDWAY, MIDWAY;
    r := Step(h, msg, offset, 0, r, 0x7c20c838, 0x4670ae6e); r := Step(h, msg, offset, 1, r, 0x7c3c0f86, 0x8c51be64);
    r := Step(h, msg, offset, 2, r, 0xfd1eebdc, 0xaf71b9ea); r := Step(h, msg, offset, 3, r, 0xf268faa9, 0xe20362ef);
    r := Step(h, msg, offset, 4, r, 0x185a5d79, 0x8dff3001); r := Step(h, msg, offset, 5, r, 0x3eeb6c06, 0xfe20cda6);
    r := Step(h, msg, offset, 6, r, 0x89bba3f1, 0x0a34df03); r := Step(h, msg, offset, 7, r, 0xbf9a93a0, 0x059abdd1);
  }

  lemma {:induction false} BackRounds16(msg: Bytes, offset: nat)
    requires offset + 64 <= |msg| && BackBlock(msg, offset)
    ensures Rounds(MIDWAY, msg, offset, 16)
         == Regs(0x16a8cc79, 0x0cea5cbc, 0xd74080fa, 0x35ee996d, 0x0fcb1f6f, 0x60356548, 0x68aa893f, 0x5c24e2a2)
  {
    BackRounds8(msg, offset);
    Constants8();
    var h := MIDWAY;
    var r := Regs(0xbf9a93a0, 0x89bba3f1, 0x3eeb6c06, 0x185a5d79, 0x059abdd1, 0x0a34df03, 0xfe20cda6, 0x8dff3001);
    r := Step(h, msg, offset, 8, r, 0x2c096744, 0xabfa465b); r := Step(h, msg, offset, 9, r, 0x2d964e86, 0xaa27ed82);
    r := Step(h, msg, offset, 10, r, 0x5b35025b, 0x10e77723); r := Step(h, msg, offset, 11, r, 0x5eb4ec40, 0xe11b4548);
    r := Step(h, msg, offset, 12, r, 0x35ee996d, 0x5c24e2a2); r := Step(h, msg, offset, 13, r, 0xd74080fa, 0x68aa893f);
    r := Step(h, msg, offset, 14, r, 0x0cea5cbc, 0x60356548); r := Step(h, msg, offset, 15, r, 0x16a8cc79, 0x0fcb1f6f);
  }

  lemma {:induction false} BackRounds24(msg: Bytes, offset: nat)
    requires offset + 64 <= |msg| && BackBlock(msg, offset)
    ensures Rounds(MIDWAY, msg, offset, 24)
         == Regs(0xa4195b91, 0xf13ae55b, 0xd44dc81a, 0x20aad899, 0xeddbd6ed, 0x966aa287, 0x5bace62d, 0xcc4769f2)
  {
    BackRounds16(msg, offset);
    BackWords16(msg, offset);
    Constants16();
    var h := MIDWAY;
    var r := Regs(0x16a8cc79, 0x0cea5cbc, 0xd74080fa, 0x35ee996d, 0x0fcb1f6f, 0x60356548, 0x68aa893f, 0x5c24e2a2);
    r := Step(h, msg, offset, 16, r, 0xf16f634e, 0x8b21cdc1); r := Step(h, msg, offset, 17, r, 0x23dcb6c2, 0xca9182d3);
    r := Step(h, msg, offset, 18, r, 0xdcff40fd, 0x69bf7b95); r := Step(h, msg, offset, 19, r, 0x76f1a2bc, 0x0dc84bb1);
    r := Step(h, msg, offset, 20, r, 0x20aad899, 0xcc4769f2); r := Step(h, msg, offset, 21, r, 0xd44dc81a, 0x5bace62d);
    r := Step(h, msg, offset, 22, r, 0xf13ae55b, 0x966aa287); r := Step(h, msg, offset, 23, r, 0xa4195b91, 0xeddbd6ed);
  }

  lemma {:induction false} BackRounds32(msg: Bytes, offset: nat)
    requires offset + 64 <= |msg| && BackBlock(msg, offset)
    ensures Rounds(MIDWAY, msg, offset, 32)
         == Regs(0xb0eab1c5, 0x02ef3a5f, 0x1cfa5eb0, 0xd958b529, 0xf6d93952, 0x5da10665, 0x6c49db9f, 0xc2fa99b1)
  {
    BackRounds24(msg, offset);
    BackWords16(msg, offset);
    Constants24();
    var h := MIDWAY;
    var r := Regs(0xa4195b91, 0xf13ae55b, 0xd44dc81a, 0x20aad899, 0xeddbd6ed, 0x966aa287, 0x5bace62d, 0xcc4769f2);
    r := Step(h, msg, offset, 24, r, 0x4984fa79, 0xa530d939); r := Step(h, msg, offset, 25, r, 0xaa6cb982, 0x0b5eeea4);
    r := Step(h, msg, offset, 26, r, 0x9450fbbc, 0x09166dda); r := Step(h, msg, offset, 27, r, 0x0d936bab, 0x6e495d4b);
    r := Step(h, msg, offset, 28, r, 0xd958b529, 0xc2fa99b1); r := Step(h, msg, offset, 29, r, 0x1cfa5eb0, 0x6c49db9f);
    r := Step(h, msg, offset, 30, r, 0x02ef3a5f, 0x5da10665); r := Step(h, msg, offset, 31, r, 0xb0eab1c5, 0xf6d93952);
  }

  lemma {:induction false} BackRounds40(msg: Bytes, offset: nat)
    requires offset + 64 <= |msg| && BackBlock(msg, offset)
    ensures Rounds(MIDWAY, msg, offset, 40)
         == Regs(0x221b8a5a, 0xadca7a96, 0xd949682b, 0x2f11c939, 0x0b82c5eb, 0xc6cce4ff, 0x32d99008, 0xfed4ce1d)
  {
    BackRounds32(msg, offset);
    BackWords32(msg, offset);
    Constants32();
    var h := MIDWAY;
    var r := Regs(0xb0eab1c5, 0x02ef3a5f, 0x1cfa5eb0, 0xd958b529, 0xf6d93952, 0x5da10665, 0x6c49db9f, 0xc2fa99b1);
    r := Step(h, msg, offset, 32, r, 0x0bfba73c, 0x8b99e3a9); r := Step(h, msg, offset, 33, r, 0x4bd1df96, 0x905e44ac);
    r := Step(h, msg, offset, 34, r, 0x9907f1b6, 0x66c3043d); r := Step(h, msg, offset, 35, r, 0xecde4e0d, 0x5dc119e6);
    r := Step(h, msg, offset, 36, r, 0x2f11c939, 0xfed4ce1d); r := Step(h, msg, offset, 37, r, 0xd949682b, 0x32d99008);
    r := Step(h, msg, offset, 38, r, 0xadca7a96, 0xc6cce4ff); r := Step(h, msg, offset, 39, r, 0x221b8a5a, 0x0b82c5eb);
  }

  lemma {:induction false} BackRounds48(msg: Bytes, offset: nat)
    requires offset + 64 <= |msg| && BackBlock(msg, offset)
    ensures Rounds(MIDWAY, msg, offset, 48)
         == Regs(0xd7354d5b, 0x0b3303a7, 0x104a7db4, 0x0f154e11, 0xaad55b6b, 0xbbe1c39a, 0x5348e8f6, 0x6f9517cb)
  {
    BackRounds40(msg, offset);
    BackWords32(msg, offset);
    Constants40();
    var h := MIDWAY;
    var r := Regs(0x221b8a5a, 0xadca7a96, 0xd949682b, 0x2f11c939, 0x0b82c5eb, 0xc6cce4ff, 0x32d99008, 0xfed4ce1d);
    r := Step(h, msg, offset, 40, r, 0x12d97845, 0xe4213ca2); r := Step(h, msg, offset, 41, r, 0x2c794876, 0xff6759ba);
    r := Step(h, msg, offset, 42, r, 0x8300fca2, 0xe0e3457c); r := Step(h, msg, offset, 43, r, 0xf2ad6322, 0xcc48c7f3);
    r := Step(h, msg, offset, 44, r, 0x0f154e11, 0x6f9517cb); r := Step(h, msg, offset, 45, r, 0x104a7db4, 0x5348e8f6);
    r := Step(h, msg, offset, 46, r, 0x0b3303a7, 0xbbe1c39a); r := Step(h, msg, offset, 47, r, 0xd7354d5b, 0xaad55b6b);
  }

  lemma {:induction false} BackRounds56(msg: Bytes, offset: nat)
    requires offset + 64 <= |msg| && BackBlock(msg, offset)
    ensures Rounds(MIDWAY, msg, offset, 56)
         == Regs(0x92952710, 0xd9f0c115, 0xec02560a, 0x4eca6fa0, 0x226806d6, 0x624150c4, 0x7151df8e, 0x989ed071)
  {
    BackRounds48(msg, offset);
    BackWords48(msg, offset);
    Constants48();
    var h := MIDWAY;
    var r := Regs(0xd7354d5b, 0x0b3303a7, 0x104a7db4, 0x0f154e11, 0xaad55b6b, 0xbbe1c39a, 0x5348e8f6, 0x6f9517cb);
    r := Step(h, msg, offset, 48, r, 0xb736d7a6, 0x68f25260); r := Step(h, msg, offset, 49, r, 0x2748e5ec, 0xd4b58576);
    r := Step(h, msg, offset, 50, r, 0xd8aabcf9, 0x27844711); r := Step(h, msg, offset, 51, r, 0x1a6bcf6a, 0xff5e99d0);
    r := Step(h, msg, offset, 52, r, 0x4eca6fa0, 0x989ed071); r := Step(h, msg, offset, 53, r, 0xec02560a, 0x7151df8e);
    r := Step(h, msg, offset, 54, r, 0xd9f0c115, 0x624150c4); r := Step(h, msg, offset, 55, r, 0x92952710, 0x226806d6);
  }

  lemma {:induction false} BackRounds64(msg: Bytes, offset: nat)
    requires offset + 64 <= |msg| && BackBlock(msg, offset)
    ensures Rounds(MIDWAY, msg, offset, 64)
         == Regs(0x9ea7148b, 0x908c2123, 0xb25cef29, 0xa9f181dd, 0x2c5c4ed0, 0x9a392956, 0x2aa1bb13, 0x27ccb387)
  {
    BackRounds56(msg, offset);
    BackWords48(msg, offset);
    Constants56();
    var h := MIDWAY;
    var r := Regs(0x92952710, 0xd9f0c115, 0xec02560a, 0x4eca6fa0, 0x226806d6, 0x624150c4, 0x7151df8e, 0x989ed071);
    r := Step(h, msg, offset, 56, r, 0x20d4d0e4, 0x4e515a4d); r := Step(h, msg, offset, 57, r, 0x4348eb1f, 0xc21eddf9);
    r := Step(h, msg, offset, 58, r, 0x286fe5f0, 0x54076664); r := Step(h, msg, offset, 59, r, 0x1c4cddd9, 0xf487a853);
    r := Step(h, msg, offset, 60, r, 0xa9f181dd, 0x27ccb387); r := Step(h, msg, offset, 61, r, 0xb25cef29, 0x2aa1bb13);
    r := Step(h, msg, offset, 62, r, 0x908c2123, 0x9a392956); r := Step(h, msg, offset, 63, r, 0x9ea7148b, 0x2c5c4ed0);
  }

  lemma {:induction false} BackCompresses(msg: Bytes, offset: nat)
    requires offset + 64 <= |msg| && BackBlock(msg, offset)
    ensures Compress(MIDWAY, msg, offset)
         == Regs(0x248d6a61, 0xd20638b8, 0xe5c02693, 0x0c3e6039, 0xa33ce459, 0x64ff2167, 0xf6ecedd4, 0x19db06c1)
  {
    BackRounds64(msg, offset);
  }

  // ----- padding -----

  /** The higher bytes of a small number are zero. */
  lemma HighByte(n: nat, k: nat)
    requires n < 0x1_0000 && 2 <= k
    ensures ByteOf(n, k) == 0
  {
    HighPower(k);
    assert n / Power256(k) == 0 by { DivModUnique(Power256(k), n, 0, n); }
  }

  lemma {:induction false} HighPower(k: nat)
    requires k >= 2
    ensures Power256(k) >= 0x1_0000
  {
    if k == 2 {
      assert Power256(1) == 256;
    } else {
      HighPower(k - 1);
    }
  }

  lemma LowBytes(n: nat, b0: bv8, b1: bv8)
    requires n % 256 == b0 as nat && n / 256 % 256 == b1 as nat
    ensures ByteOf(n, 0) == b0 && ByteOf(n, 1) == b1
  {
    assert Power256(0) == 1 && Power256(1) == 256;
    SameByte(ByteOf(n, 0), b0);
    SameByte(ByteOf(n, 1), b1);
  }

  /** The length field of a message of less than 2^16 bits. */
  lemma LengthField(m: Bytes, b0: bv8, b1: bv8, i: nat)
    requires 8 * |m| < 0x1_0000
    requires 8 * |m| % 256 == b0 as nat && 8 * |m| / 256 % 256 == b1 as nat
    requires |m| < i < |Pad(m)|
    ensures Pad(m)[i] == if i == |Pad(m)| - 1 then b0 else if i == |Pad(m)| - 2 then b1 else 0
  {
    if i < |Pad(m)| - 8 {
      PadMark(m, i);
    } else {
      var k := |Pad(m)| - 1 - i;
      assert Pad(m)[i] == ByteOf(8 * |m|, k);
      if k >= 2 { HighByte(8 * |m|, k); } else { LowBytes(8 * |m|, b0, b1); }
    }
  }

  // ----- the published digests -----

  /** The characters "abc". */
  const ABC: Bytes := [0x61, 0x62, 0x63]

  lemma {:induction false} AbcIsPadded()
    ensures |Pad(ABC)| == 64 && AbcBlock(Pad(ABC), 0)
  {
    var p := Pad(ABC);
    assert p[0] == 0x61 && p[1] == 0x62 && p[2] == 0x63 && p[3] == 0x80;
    forall i | 4 <= i < 64 ensures p[i] == if i == 63 then 0x18 else 0 {
      LengthField(ABC, 0x18, 0x00, i);
    }
  }

  const ABC_DIGEST: Bytes :=
    [0xba, 0x78, 0x16, 0xbf, 0x8f, 0x01, 0xcf, 0xea]
    + [0x41, 0x41, 0x40, 0xde, 0x5d, 0xae, 0x22, 0x23]
    + [0xb0, 0x03, 0x61, 0xa3, 0x96, 0x17, 0x7a, 0x9c]
    + [0xb4, 0x10, 0xff, 0x61, 0xf2, 0x00, 0x15, 0xad]

  const ABC_HASH := Regs(0xba7816bf, 0x8f01cfea, 0x414140de, 0x5dae2223,
                         0xb00361a3, 0x96177a9c, 0xb410ff61, 0xf20015ad)

  lemma {:induction false} AbcHashed()
    ensures HashValue(Pad(ABC), 1) == ABC_HASH
  {
    AbcIsPadded();
    AbcCompresses(Pad(ABC), 0);
    assert HashValue(Pad(ABC), 1) == Compress(HashValue(Pad(ABC), 0), Pad(ABC), 0);
  }

  lemma AbcBytes()
    ensures Digest(ABC_HASH) == ABC_DIGEST
  {
  }

  /** The published digest of "abc". */
  lemma {:induction false} DigestOfAbc()
    ensures Sha256(ABC) == ABC_DIGEST
  {
    AbcIsPadded();
    AbcHashed();
    AbcBytes();
    assert Sha256(ABC) == Digest(ABC_HASH);
  }

  /** The characters "abcdbcdecdefdefgefghfghighijhijk" and "ijkljklmklmnlmnomnopnopq". */
  const TWO_BLOCKS: Bytes :=
    [0x61, 0x62, 0x63, 0x64, 0x62, 0x63, 0x64, 0x65]
    + [0x63, 0x64, 0x65, 0x66, 0x64, 0x65, 0x66, 0x67]
    + [0x65, 0x66, 0x67, 0x68, 0x66, 0x67, 0x68, 0x69]
    + [0x67, 0x68, 0x69, 0x6a, 0x68, 0x69, 0x6a, 0x6b]
    + [0x69, 0x6a, 0x6b, 0x6c, 0x6a, 0x6b, 0x6c, 0x6d]
    + [0x6b, 0x6c, 0x6d, 0x6e, 0x6c, 0x6d, 0x6e, 0x6f]
    + [0x6d, 0x6e, 0x6f, 0x70, 0x6e, 0x6f, 0x70, 0x71]

  lemma {:induction false} TwoBlocksArePadded(i: nat)
    ensures |Pad(TWO_BLOCKS)| == 128 && Pad(TWO_BLOCKS)[..56] == TWO_BLOCKS && Pad(TWO_BLOCKS)[56] == 0x80
    ensures 56 < i < 128 ==> Pad(TWO_BLOCKS)[i] == if i == 127 then 0xc0 else if i == 126 then 0x01 else 0
  {
    if 56 < i < 128 { LengthField(TWO_BLOCKS, 0xc0, 0x01, i); }
  }

  lemma {:induction false} FrontStart()
    ensures var p := Pad(TWO_BLOCKS);
            && |p| == 128 && Schedule(p, 0, 0) == 0x61626364 && Schedule(p, 0, 1) == 0x62636465
            && Schedule(p, 0, 2) == 0x63646566 && Schedule(p, 0, 3) == 0x64656667
  {
    TwoBlocksArePadded(0);
  }

  lemma {:induction false} FrontMiddle()
    ensures var p := Pad(TWO_BLOCKS);
            && |p| == 128 && Schedule(p, 0, 4) == 0x65666768 && Schedule(p, 0, 5) == 0x66676869
            && Schedule(p, 0, 6) == 0x6768696a && Schedule(p, 0, 7) == 0x68696a6b
  {
    TwoBlocksArePadded(0);
  }

  lemma {:induction false} FrontIsPadded()
    ensures |Pad(TWO_BLOCKS)| == 128 && FrontBlock(Pad(TWO_BLOCKS), 0)
  {
    FrontStart();
    FrontMiddle();
    var p := Pad(TWO_BLOCKS);
    TwoBlocksArePadded(0);
    forall i | 56 < i < 64 ensures p[i] == 0 {
      TwoBlocksArePadded(i);
    }
  }

  lemma {:induction false} BackIsPadded()
    ensures |Pad(TWO_BLOCKS)| == 128 && BackBlock(Pad(TWO_BLOCKS), 64)
  {
    var p := Pad(TWO_BLOCKS);
    forall i | 64 <= i < 128 ensures p[i] == if i == 127 then 0xc0 else if i == 126 then 0x01 else 0 {
      TwoBlocksArePadded(i);
    }
  }

  const TWO_BLOCKS_DIGEST: Bytes :=
    [0x24, 0x8d, 0x6a, 0x61, 0xd2, 0x06, 0x38, 0xb8]
    + [0xe5, 0xc0, 0x26, 0x93, 0x0c, 0x3e, 0x60, 0x39]
    + [0xa3, 0x3c, 0xe4, 0x59, 0x64, 0xff, 0x21, 0x67]
    + [0xf6, 0xec, 0xed, 0xd4, 0x19, 0xdb, 0x06, 0xc1]

  const TWO_BLOCKS_HASH := Regs(0x248d6a61, 0xd20638b8, 0xe5c02693, 0x0c3e6039,
                                0xa33ce459, 0x64ff2167, 0xf6ecedd4, 0x19db06c1)

  lemma {:induction false} TwoBlocksHashed()
    ensures |Pad(TWO_BLOCKS)| == 128 && HashValue(Pad(TWO_BLOCKS), 2) == TWO_BLOCKS_HASH
  {
    var p := Pad(TWO_BLOCKS);
    FrontIsPadded();
    BackIsPadded();
    FrontCompresses(p, 0);
    BackCompresses(p, 64);
    assert HashValue(p, 1) == Compress(HashValue(p, 0), p, 0);
    assert HashValue(p, 2) == Compress(HashValue(p, 1), p, 64);
  }

  lemma TwoBlocksBytes()
    ensures Digest(TWO_BLOCKS_HASH) == TWO_BLOCKS_DIGEST
  {
  }

  /** The published digest of the message of two blocks. */
  lemma {:induction false} DigestOfTwoBlocks()
    ensures Sha256(TWO_BLOCKS) == TWO_BLOCKS_DIGEST
  {
    TwoBlocksHashed();
    TwoBlocksBytes();
    assert Sha256(TWO_BLOCKS) == Digest(TWO_BLOCKS_HASH);
  }
}
