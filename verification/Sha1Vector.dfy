/** The digest of "abc", the one-block example of SHA-1 in the validation tests of FIPS 180-4: it fixes the rounds,
    the schedule, the constants, the initial value and the order of bytes. */
module Sha1Vector {
  import opened Words
  import opened Sha1Spec

  // After t rounds on block b the state is h, and these are the next sixteen words of its schedule.
  ghost predicate Known(b: seq<Byte>, t: nat, h: Hash, w0: Word, w1: Word, w2: Word, w3: Word, w4: Word, w5: Word,
                        w6: Word, w7: Word, w8: Word, w9: Word, w10: Word, w11: Word, w12: Word, w13: Word, w14: Word,
                        w15: Word)
    requires |b| == BLOCK_BYTES && t <= 64
  {
    && Rounds(IV, b, t) == h
    && Schedule(b, t) == w0 && Schedule(b, t + 1) == w1 && Schedule(b, t + 2) == w2 && Schedule(b, t + 3) == w3
    && Schedule(b, t + 4) == w4 && Schedule(b, t + 5) == w5 && Schedule(b, t + 6) == w6 && Schedule(b, t + 7) == w7
    && Schedule(b, t + 8) == w8 && Schedule(b, t + 9) == w9 && Schedule(b, t + 10) == w10
    && Schedule(b, t + 11) == w11 && Schedule(b, t + 12) == w12 && Schedule(b, t + 13) == w13
    && Schedule(b, t + 14) == w14 && Schedule(b, t + 15) == w15
  }

  // One word more of the schedule
  lemma NextWord(b: seq<Byte>, t: nat, w3: Word, w8: Word, w14: Word, w16: Word, w: Word)
    requires |b| == BLOCK_BYTES && 16 <= t < 80
    requires Schedule(b, t - 3) == w3 && Schedule(b, t - 8) == w8 && Schedule(b, t - 14) == w14
    requires Schedule(b, t - 16) == w16 && Rotl(Mix(w3, w8, w14, w16), 1) == w
    ensures Schedule(b, t) == w
  {
    hide Rotl, Mix;
  }

  // One round more
  lemma Turn(b: seq<Byte>, t: nat, h: Hash, w: Word, r: Hash)
    requires |b| == BLOCK_BYTES && t < 80 && Rounds(IV, b, t) == h && Schedule(b, t) == w && Round(h, t, w) == r
    ensures Rounds(IV, b, t + 1) == r
  {
    hide Schedule, Round;
  }

  lemma Rounds0(b: seq<Byte>)
    requires |b| == BLOCK_BYTES
    requires Known(b, 0, Hash(0x67452301, 0xefcdab89, 0x98badcfe, 0x10325476, 0xc3d2e1f0),
          0x61626380, 0x00000000, 0x00000000, 0x00000000, 0x00000000, 0x00000000, 0x00000000, 0x00000000,
          0x00000000, 0x00000000, 0x00000000, 0x00000000, 0x00000000, 0x00000000, 0x00000000, 0x00000018)
    ensures Known(b, 8, Hash(0x9e8c07d4, 0x993e30c1, 0x0ff1f290, 0xb3f52677, 0xf3763846),
          0x00000000, 0x00000000, 0x00000000, 0x00000000, 0x00000000, 0x00000000, 0x00000000, 0x00000018,
          0xc2c4c700, 0x00000000, 0x00000030, 0x85898e01, 0x00000000, 0x00000060, 0x0b131c03, 0x00000030)
  {
    hide Schedule, Rounds;
    NextWord(b, 16, 0x00000000, 0x00000000, 0x00000000, 0x61626380, 0xc2c4c700);
    NextWord(b, 17, 0x00000000, 0x00000000, 0x00000000, 0x00000000, 0x00000000);
    NextWord(b, 18, 0x00000018, 0x00000000, 0x00000000, 0x00000000, 0x00000030);
    NextWord(b, 19, 0xc2c4c700, 0x00000000, 0x00000000, 0x00000000, 0x85898e01);
    NextWord(b, 20, 0x00000000, 0x00000000, 0x00000000, 0x00000000, 0x00000000);
    NextWord(b, 21, 0x00000030, 0x00000000, 0x00000000, 0x00000000, 0x00000060);
    NextWord(b, 22, 0x85898e01, 0x00000000, 0x00000000, 0x00000000, 0x0b131c03);
    NextWord(b, 23, 0x00000000, 0x00000018, 0x00000000, 0x00000000, 0x00000030);
    Turn(b, 0, Hash(0x67452301, 0xefcdab89, 0x98badcfe, 0x10325476, 0xc3d2e1f0), 0x61626380,
         Hash(0x0116fc33, 0x67452301, 0x7bf36ae2, 0x98badcfe, 0x10325476));
    Turn(b, 1, Hash(0x0116fc33, 0x67452301, 0x7bf36ae2, 0x98badcfe, 0x10325476), 0x00000000,
         Hash(0x8990536d, 0x0116fc33, 0x59d148c0, 0x7bf36ae2, 0x98badcfe));
    Turn(b, 2, Hash(0x8990536d, 0x0116fc33, 0x59d148c0, 0x7bf36ae2, 0x98badcfe), 0x00000000,
         Hash(0xa1390f08, 0x8990536d, 0xc045bf0c, 0x59d148c0, 0x7bf36ae2));
    Turn(b, 3, Hash(0xa1390f08, 0x8990536d, 0xc045bf0c, 0x59d148c0, 0x7bf36ae2), 0x00000000,
         Hash(0xcdd8e11b, 0xa1390f08, 0x626414db, 0xc045bf0c, 0x59d148c0));
    Turn(b, 4, Hash(0xcdd8e11b, 0xa1390f08, 0x626414db, 0xc045bf0c, 0x59d148c0), 0x00000000,
         Hash(0xcfd499de, 0xcdd8e11b, 0x284e43c2, 0x626414db, 0xc045bf0c));
    Turn(b, 5, Hash(0xcfd499de, 0xcdd8e11b, 0x284e43c2, 0x626414db, 0xc045bf0c), 0x00000000,
         Hash(0x3fc7ca40, 0xcfd499de, 0xf3763846, 0x284e43c2, 0x626414db));
    Turn(b, 6, Hash(0x3fc7ca40, 0xcfd499de, 0xf3763846, 0x284e43c2, 0x626414db), 0x00000000,
         Hash(0x993e30c1, 0x3fc7ca40, 0xb3f52677, 0xf3763846, 0x284e43c2));
    Turn(b, 7, Hash(0x993e30c1, 0x3fc7ca40, 0xb3f52677, 0xf3763846, 0x284e43c2), 0x00000000,
         Hash(0x9e8c07d4, 0x993e30c1, 0x0ff1f290, 0xb3f52677, 0xf3763846));
  }

  lemma Rounds8(b: seq<Byte>)
    requires |b| == BLOCK_BYTES
    requires Known(b, 8, Hash(0x9e8c07d4, 0x993e30c1, 0x0ff1f290, 0xb3f52677, 0xf3763846),
          0x00000000, 0x00000000, 0x00000000, 0x00000000, 0x00000000, 0x00000000, 0x00000000, 0x00000018,
          0xc2c4c700, 0x00000000, 0x00000030, 0x85898e01, 0x00000000, 0x00000060, 0x0b131c03, 0x00000030)
    ensures Known(b, 16, Hash(0x20bdd62f, 0x196bee77, 0x644a3da5, 0x1181ed99, 0x18c623f9),
          0xc2c4c700, 0x00000000, 0x00000030, 0x85898e01, 0x00000000, 0x00000060, 0x0b131c03, 0x00000030,
          0x85898ec1, 0x16263806, 0x00000000, 0x00000180, 0x2c4c700c, 0x000000f0, 0x93afb507, 0x5898e048)
  {
    hide Schedule, Rounds;
    NextWord(b, 24, 0x00000060, 0xc2c4c700, 0x00000000, 0x00000000, 0x85898ec1);
    NextWord(b, 25, 0x0b131c03, 0x00000000, 0x00000000, 0x00000000, 0x16263806);
    NextWord(b, 26, 0x00000030, 0x00000030, 0x00000000, 0x00000000, 0x00000000);
    NextWord(b, 27, 0x85898ec1, 0x85898e01, 0x00000000, 0x00000000, 0x00000180);
    NextWord(b, 28, 0x16263806, 0x00000000, 0x00000000, 0x00000000, 0x2c4c700c);
    NextWord(b, 29, 0x00000000, 0x00000060, 0x00000018, 0x00000000, 0x000000f0);
    NextWord(b, 30, 0x00000180, 0x0b131c03, 0xc2c4c700, 0x00000000, 0x93afb507);
    NextWord(b, 31, 0x2c4c700c, 0x00000030, 0x00000000, 0x00000018, 0x5898e048);
    Turn(b, 8, Hash(0x9e8c07d4, 0x993e30c1, 0x0ff1f290, 0xb3f52677, 0xf3763846), 0x00000000,
         Hash(0x4b6ae328, 0x9e8c07d4, 0x664f8c30, 0x0ff1f290, 0xb3f52677));
    Turn(b, 9, Hash(0x4b6ae328, 0x9e8c07d4, 0x664f8c30, 0x0ff1f290, 0xb3f52677), 0x00000000,
         Hash(0x8351f929, 0x4b6ae328, 0x27a301f5, 0x664f8c30, 0x0ff1f290));
    Turn(b, 10, Hash(0x8351f929, 0x4b6ae328, 0x27a301f5, 0x664f8c30, 0x0ff1f290), 0x00000000,
         Hash(0xfbda9e89, 0x8351f929, 0x12dab8ca, 0x27a301f5, 0x664f8c30));
    Turn(b, 11, Hash(0xfbda9e89, 0x8351f929, 0x12dab8ca, 0x27a301f5, 0x664f8c30), 0x00000000,
         Hash(0x63188fe4, 0xfbda9e89, 0x60d47e4a, 0x12dab8ca, 0x27a301f5));
    Turn(b, 12, Hash(0x63188fe4, 0xfbda9e89, 0x60d47e4a, 0x12dab8ca, 0x27a301f5), 0x00000000,
         Hash(0x4607b664, 0x63188fe4, 0x7ef6a7a2, 0x60d47e4a, 0x12dab8ca));
    Turn(b, 13, Hash(0x4607b664, 0x63188fe4, 0x7ef6a7a2, 0x60d47e4a, 0x12dab8ca), 0x00000000,
         Hash(0x9128f695, 0x4607b664, 0x18c623f9, 0x7ef6a7a2, 0x60d47e4a));
    Turn(b, 14, Hash(0x9128f695, 0x4607b664, 0x18c623f9, 0x7ef6a7a2, 0x60d47e4a), 0x00000000,
         Hash(0x196bee77, 0x9128f695, 0x1181ed99, 0x18c623f9, 0x7ef6a7a2));
    Turn(b, 15, Hash(0x196bee77, 0x9128f695, 0x1181ed99, 0x18c623f9, 0x7ef6a7a2), 0x00000018,
         Hash(0x20bdd62f, 0x196bee77, 0x644a3da5, 0x1181ed99, 0x18c623f9));
  }

  lemma Rounds16(b: seq<Byte>)
    requires |b| == BLOCK_BYTES
    requires Known(b, 16, Hash(0x20bdd62f, 0x196bee77, 0x644a3da5, 0x1181ed99, 0x18c623f9),
          0xc2c4c700, 0x00000000, 0x00000030, 0x85898e01, 0x00000000, 0x00000060, 0x0b131c03, 0x00000030,
          0x85898ec1, 0x16263806, 0x00000000, 0x00000180, 0x2c4c700c, 0x000000f0, 0x93afb507, 0x5898e048)
    ensures Known(b, 24, Hash(0xd541f12d, 0x21283486, 0x0ce88eff, 0x868dec32, 0x7f67875f),
          0x85898ec1, 0x16263806, 0x00000000, 0x00000180, 0x2c4c700c, 0x000000f0, 0x93afb507, 0x5898e048,
          0x8e9a9202, 0x00000600, 0xb131c0f0, 0x16263bc6, 0x4ebed41e, 0x626380a1, 0x16263806, 0x000018c0)
  {
    hide Schedule, Rounds;
    NextWord(b, 32, 0x000000f0, 0x85898ec1, 0x00000030, 0xc2c4c700, 0x8e9a9202);
    NextWord(b, 33, 0x93afb507, 0x16263806, 0x85898e01, 0x00000000, 0x00000600);
    NextWord(b, 34, 0x5898e048, 0x00000000, 0x00000000, 0x00000030, 0xb131c0f0);
    NextWord(b, 35, 0x8e9a9202, 0x00000180, 0x00000060, 0x85898e01, 0x16263bc6);
    NextWord(b, 36, 0x00000600, 0x2c4c700c, 0x0b131c03, 0x00000000, 0x4ebed41e);
    NextWord(b, 37, 0xb131c0f0, 0x000000f0, 0x00000030, 0x00000060, 0x626380a1);
    NextWord(b, 38, 0x16263bc6, 0x93afb507, 0x85898ec1, 0x0b131c03, 0x16263806);
    NextWord(b, 39, 0x4ebed41e, 0x5898e048, 0x16263806, 0x00000030, 0x000018c0);
    Turn(b, 16, Hash(0x20bdd62f, 0x196bee77, 0x644a3da5, 0x1181ed99, 0x18c623f9), 0xc2c4c700,
         Hash(0x4e925823, 0x20bdd62f, 0xc65afb9d, 0x644a3da5, 0x1181ed99));
    Turn(b, 17, Hash(0x4e925823, 0x20bdd62f, 0xc65afb9d, 0x644a3da5, 0x1181ed99), 0x00000000,
         Hash(0x82aa6728, 0x4e925823, 0xc82f758b, 0xc65afb9d, 0x644a3da5));
    Turn(b, 18, Hash(0x82aa6728, 0x4e925823, 0xc82f758b, 0xc65afb9d, 0x644a3da5), 0x00000030,
         Hash(0xdc64901d, 0x82aa6728, 0xd3a49608, 0xc82f758b, 0xc65afb9d));
    Turn(b, 19, Hash(0xdc64901d, 0x82aa6728, 0xd3a49608, 0xc82f758b, 0xc65afb9d), 0x85898e01,
         Hash(0xfd9e1d7d, 0xdc64901d, 0x20aa99ca, 0xd3a49608, 0xc82f758b));
    Turn(b, 20, Hash(0xfd9e1d7d, 0xdc64901d, 0x20aa99ca, 0xd3a49608, 0xc82f758b), 0x00000000,
         Hash(0x1a37b0ca, 0xfd9e1d7d, 0x77192407, 0x20aa99ca, 0xd3a49608));
    Turn(b, 21, Hash(0x1a37b0ca, 0xfd9e1d7d, 0x77192407, 0x20aa99ca, 0xd3a49608), 0x00000060,
         Hash(0x33a23bfc, 0x1a37b0ca, 0x7f67875f, 0x77192407, 0x20aa99ca));
    Turn(b, 22, Hash(0x33a23bfc, 0x1a37b0ca, 0x7f67875f, 0x77192407, 0x20aa99ca), 0x0b131c03,
         Hash(0x21283486, 0x33a23bfc, 0x868dec32, 0x7f67875f, 0x77192407));
    Turn(b, 23, Hash(0x21283486, 0x33a23bfc, 0x868dec32, 0x7f67875f, 0x77192407), 0x00000030,
         Hash(0xd541f12d, 0x21283486, 0x0ce88eff, 0x868dec32, 0x7f67875f));
  }

  lemma Rounds24(b: seq<Byte>)
    requires |b| == BLOCK_BYTES
    requires Known(b, 24, Hash(0xd541f12d, 0x21283486, 0x0ce88eff, 0x868dec32, 0x7f67875f),
          0x85898ec1, 0x16263806, 0x00000000, 0x00000180, 0x2c4c700c, 0x000000f0, 0x93afb507, 0x5898e048,
          0x8e9a9202, 0x00000600, 0xb131c0f0, 0x16263bc6, 0x4ebed41e, 0x626380a1, 0x16263806, 0x000018c0)
    ensures Known(b, 32, Hash(0x3b845d33, 0x1267b407, 0x717eebd7, 0xa0dc2d4b, 0xd2aa1365),
          0x8e9a9202, 0x00000600, 0xb131c0f0, 0x16263bc6, 0x4ebed41e, 0x626380a1, 0x16263806, 0x000018c0,
          0xd2e138c4, 0x00000f00, 0x3afb5079, 0x898e04e5, 0xe2ba3c2b, 0x000060c0, 0x053a37cd, 0x74458547)
  {
    hide Schedule, Rounds;
    NextWord(b, 40, 0x626380a1, 0x8e9a9202, 0x00000000, 0x85898ec1, 0xd2e138c4);
    NextWord(b, 41, 0x16263806, 0x00000600, 0x00000180, 0x16263806, 0x00000f00);
    NextWord(b, 42, 0x000018c0, 0xb131c0f0, 0x2c4c700c, 0x00000000, 0x3afb5079);
    NextWord(b, 43, 0xd2e138c4, 0x16263bc6, 0x000000f0, 0x00000180, 0x898e04e5);
    NextWord(b, 44, 0x00000f00, 0x4ebed41e, 0x93afb507, 0x2c4c700c, 0xe2ba3c2b);
    NextWord(b, 45, 0x3afb5079, 0x626380a1, 0x5898e048, 0x000000f0, 0x000060c0);
    NextWord(b, 46, 0x898e04e5, 0x16263806, 0x8e9a9202, 0x93afb507, 0x053a37cd);
    NextWord(b, 47, 0xe2ba3c2b, 0x000018c0, 0x00000600, 0x5898e048, 0x74458547);
    Turn(b, 24, Hash(0xd541f12d, 0x21283486, 0x0ce88eff, 0x868dec32, 0x7f67875f), 0x85898ec1,
         Hash(0xc7567dc6, 0xd541f12d, 0x884a0d21, 0x0ce88eff, 0x868dec32));
    Turn(b, 25, Hash(0xc7567dc6, 0xd541f12d, 0x884a0d21, 0x0ce88eff, 0x868dec32), 0x16263806,
         Hash(0x48413ba4, 0xc7567dc6, 0x75507c4b, 0x884a0d21, 0x0ce88eff));
    Turn(b, 26, Hash(0x48413ba4, 0xc7567dc6, 0x75507c4b, 0x884a0d21, 0x0ce88eff), 0x00000000,
         Hash(0xbe35fbd5, 0x48413ba4, 0xb1d59f71, 0x75507c4b, 0x884a0d21));
    Turn(b, 27, Hash(0xbe35fbd5, 0x48413ba4, 0xb1d59f71, 0x75507c4b, 0x884a0d21), 0x00000180,
         Hash(0x4aa84d97, 0xbe35fbd5, 0x12104ee9, 0xb1d59f71, 0x75507c4b));
    Turn(b, 28, Hash(0x4aa84d97, 0xbe35fbd5, 0x12104ee9, 0xb1d59f71, 0x75507c4b), 0x2c4c700c,
         Hash(0x8370b52e, 0x4aa84d97, 0x6f8d7ef5, 0x12104ee9, 0xb1d59f71));
    Turn(b, 29, Hash(0x8370b52e, 0x4aa84d97, 0x6f8d7ef5, 0x12104ee9, 0xb1d59f71), 0x000000f0,
         Hash(0xc5fbaf5d, 0x8370b52e, 0xd2aa1365, 0x6f8d7ef5, 0x12104ee9));
    Turn(b, 30, Hash(0xc5fbaf5d, 0x8370b52e, 0xd2aa1365, 0x6f8d7ef5, 0x12104ee9), 0x93afb507,
         Hash(0x1267b407, 0xc5fbaf5d, 0xa0dc2d4b, 0xd2aa1365, 0x6f8d7ef5));
    Turn(b, 31, Hash(0x1267b407, 0xc5fbaf5d, 0xa0dc2d4b, 0xd2aa1365, 0x6f8d7ef5), 0x5898e048,
         Hash(0x3b845d33, 0x1267b407, 0x717eebd7, 0xa0dc2d4b, 0xd2aa1365));
  }

  lemma Rounds32(b: seq<Byte>)
    requires |b| == BLOCK_BYTES
    requires Known(b, 32, Hash(0x3b845d33, 0x1267b407, 0x717eebd7, 0xa0dc2d4b, 0xd2aa1365),
          0x8e9a9202, 0x00000600, 0xb131c0f0, 0x16263bc6, 0x4ebed41e, 0x626380a1, 0x16263806, 0x000018c0,
          0xd2e138c4, 0x00000f00, 0x3afb5079, 0x898e04e5, 0xe2ba3c2b, 0x000060c0, 0x053a37cd, 0x74458547)
    ensures Known(b, 40, Hash(0x32de1cba, 0x4c986405, 0xf718e5cf, 0x03d447f6, 0xf72eec32),
          0xd2e138c4, 0x00000f00, 0x3afb5079, 0x898e04e5, 0xe2ba3c2b, 0x000060c0, 0x053a37cd, 0x74458547,
          0xda9415ed, 0x26380a16, 0x626383a1, 0x4ebf54de, 0x3835b44b, 0x0000f600, 0x1e84c7a3, 0x98e04d98)
  {
    hide Schedule, Rounds;
    NextWord(b, 48, 0x000060c0, 0xd2e138c4, 0xb131c0f0, 0x8e9a9202, 0xda9415ed);
    NextWord(b, 49, 0x053a37cd, 0x00000f00, 0x16263bc6, 0x00000600, 0x26380a16);
    NextWord(b, 50, 0x74458547, 0x3afb5079, 0x4ebed41e, 0xb131c0f0, 0x626383a1);
    NextWord(b, 51, 0xda9415ed, 0x898e04e5, 0x626380a1, 0x16263bc6, 0x4ebf54de);
    NextWord(b, 52, 0x26380a16, 0xe2ba3c2b, 0x16263806, 0x4ebed41e, 0x3835b44b);
    NextWord(b, 53, 0x626383a1, 0x000060c0, 0x000018c0, 0x626380a1, 0x0000f600);
    NextWord(b, 54, 0x4ebf54de, 0x053a37cd, 0xd2e138c4, 0x16263806, 0x1e84c7a3);
    NextWord(b, 55, 0x3835b44b, 0x74458547, 0x00000f00, 0x000018c0, 0x98e04d98);
    Turn(b, 32, Hash(0x3b845d33, 0x1267b407, 0x717eebd7, 0xa0dc2d4b, 0xd2aa1365), 0x8e9a9202,
         Hash(0x046faa0a, 0x3b845d33, 0xc499ed01, 0x717eebd7, 0xa0dc2d4b));
    Turn(b, 33, Hash(0x046faa0a, 0x3b845d33, 0xc499ed01, 0x717eebd7, 0xa0dc2d4b), 0x00000600,
         Hash(0x2c0ebc11, 0x046faa0a, 0xcee1174c, 0xc499ed01, 0x717eebd7));
    Turn(b, 34, Hash(0x2c0ebc11, 0x046faa0a, 0xcee1174c, 0xc499ed01, 0x717eebd7), 0xb131c0f0,
         Hash(0x21796ad4, 0x2c0ebc11, 0x811bea82, 0xcee1174c, 0xc499ed01));
    Turn(b, 35, Hash(0x21796ad4, 0x2c0ebc11, 0x811bea82, 0xcee1174c, 0xc499ed01), 0x16263bc6,
         Hash(0xdcbbb0cb, 0x21796ad4, 0x4b03af04, 0x811bea82, 0xcee1174c));
    Turn(b, 36, Hash(0xdcbbb0cb, 0x21796ad4, 0x4b03af04, 0x811bea82, 0xcee1174c), 0x4ebed41e,
         Hash(0x0f511fd8, 0xdcbbb0cb, 0x085e5ab5, 0x4b03af04, 0x811bea82));
    Turn(b, 37, Hash(0x0f511fd8, 0xdcbbb0cb, 0x085e5ab5, 0x4b03af04, 0x811bea82), 0x626380a1,
         Hash(0xdc63973f, 0x0f511fd8, 0xf72eec32, 0x085e5ab5, 0x4b03af04));
    Turn(b, 38, Hash(0xdc63973f, 0x0f511fd8, 0xf72eec32, 0x085e5ab5, 0x4b03af04), 0x16263806,
         Hash(0x4c986405, 0xdc63973f, 0x03d447f6, 0xf72eec32, 0x085e5ab5));
    Turn(b, 39, Hash(0x4c986405, 0xdc63973f, 0x03d447f6, 0xf72eec32, 0x085e5ab5), 0x000018c0,
         Hash(0x32de1cba, 0x4c986405, 0xf718e5cf, 0x03d447f6, 0xf72eec32));
  }

  lemma Rounds40(b: seq<Byte>)
    requires |b| == BLOCK_BYTES
    requires Known(b, 40, Hash(0x32de1cba, 0x4c986405, 0xf718e5cf, 0x03d447f6, 0xf72eec32),
          0xd2e138c4, 0x00000f00, 0x3afb5079, 0x898e04e5, 0xe2ba3c2b, 0x000060c0, 0x053a37cd, 0x74458547,
          0xda9415ed, 0x26380a16, 0x626383a1, 0x4ebf54de, 0x3835b44b, 0x0000f600, 0x1e84c7a3, 0x98e04d98)
    ensures Known(b, 48, Hash(0xbead02ca, 0xa01b846c, 0x8714787c, 0x503ca382, 0xfb86c6ab),
          0xda9415ed, 0x26380a16, 0x626383a1, 0x4ebf54de, 0x3835b44b, 0x0000f600, 0x1e84c7a3, 0x98e04d98,
          0x651d16a0, 0x62658ca1, 0x458544d6, 0x44584cb7, 0x7ba06619, 0x6380aea2, 0x0ae55269, 0x627b49a1)
  {
    hide Schedule, Rounds;
    NextWord(b, 56, 0x0000f600, 0xda9415ed, 0x3afb5079, 0xd2e138c4, 0x651d16a0);
    NextWord(b, 57, 0x1e84c7a3, 0x26380a16, 0x898e04e5, 0x00000f00, 0x62658ca1);
    NextWord(b, 58, 0x98e04d98, 0x626383a1, 0xe2ba3c2b, 0x3afb5079, 0x458544d6);
    NextWord(b, 59, 0x651d16a0, 0x4ebf54de, 0x000060c0, 0x898e04e5, 0x44584cb7);
    NextWord(b, 60, 0x62658ca1, 0x3835b44b, 0x053a37cd, 0xe2ba3c2b, 0x7ba06619);
    NextWord(b, 61, 0x458544d6, 0x0000f600, 0x74458547, 0x000060c0, 0x6380aea2);
    NextWord(b, 62, 0x44584cb7, 0x1e84c7a3, 0xda9415ed, 0x053a37cd, 0x0ae55269);
    NextWord(b, 63, 0x7ba06619, 0x98e04d98, 0x26380a16, 0x74458547, 0x627b49a1);
    Turn(b, 40, Hash(0x32de1cba, 0x4c986405, 0xf718e5cf, 0x03d447f6, 0xf72eec32), 0xd2e138c4,
         Hash(0xfc87dedf, 0x32de1cba, 0x53261901, 0xf718e5cf, 0x03d447f6));
    Turn(b, 41, Hash(0xfc87dedf, 0x32de1cba, 0x53261901, 0xf718e5cf, 0x03d447f6), 0x00000f00,
         Hash(0x970a0d5c, 0xfc87dedf, 0x8cb7872e, 0x53261901, 0xf718e5cf));
    Turn(b, 42, Hash(0x970a0d5c, 0xfc87dedf, 0x8cb7872e, 0x53261901, 0xf718e5cf), 0x3afb5079,
         Hash(0x7f193dc5, 0x970a0d5c, 0xff21f7b7, 0x8cb7872e, 0x53261901));
    Turn(b, 43, Hash(0x7f193dc5, 0x970a0d5c, 0xff21f7b7, 0x8cb7872e, 0x53261901), 0x898e04e5,
         Hash(0xee1b1aaf, 0x7f193dc5, 0x25c28357, 0xff21f7b7, 0x8cb7872e));
    Turn(b, 44, Hash(0xee1b1aaf, 0x7f193dc5, 0x25c28357, 0xff21f7b7, 0x8cb7872e), 0xe2ba3c2b,
         Hash(0x40f28e09, 0xee1b1aaf, 0x5fc64f71, 0x25c28357, 0xff21f7b7));
    Turn(b, 45, Hash(0x40f28e09, 0xee1b1aaf, 0x5fc64f71, 0x25c28357, 0xff21f7b7), 0x000060c0,
         Hash(0x1c51e1f2, 0x40f28e09, 0xfb86c6ab, 0x5fc64f71, 0x25c28357));
    Turn(b, 46, Hash(0x1c51e1f2, 0x40f28e09, 0xfb86c6ab, 0x5fc64f71, 0x25c28357), 0x053a37cd,
         Hash(0xa01b846c, 0x1c51e1f2, 0x503ca382, 0xfb86c6ab, 0x5fc64f71));
    Turn(b, 47, Hash(0xa01b846c, 0x1c51e1f2, 0x503ca382, 0xfb86c6ab, 0x5fc64f71), 0x74458547,
         Hash(0xbead02ca, 0xa01b846c, 0x8714787c, 0x503ca382, 0xfb86c6ab));
  }

  lemma Rounds48(b: seq<Byte>)
    requires |b| == BLOCK_BYTES
    requires Known(b, 48, Hash(0xbead02ca, 0xa01b846c, 0x8714787c, 0x503ca382, 0xfb86c6ab),
          0xda9415ed, 0x26380a16, 0x626383a1, 0x4ebf54de, 0x3835b44b, 0x0000f600, 0x1e84c7a3, 0x98e04d98,
          0x651d16a0, 0x62658ca1, 0x458544d6, 0x44584cb7, 0x7ba06619, 0x6380aea2, 0x0ae55269, 0x627b49a1)
    ensures Known(b, 56, Hash(0x5e6456af, 0x7b71f76d, 0x09fa7c76, 0x792410db, 0x8e11eb59),
          0x651d16a0, 0x62658ca1, 0x458544d6, 0x44584cb7, 0x7ba06619, 0x6380aea2, 0x0ae55269, 0x627b49a1,
          0x7cd45c9d, 0x000f0000, 0xfb50753a, 0xec6765e8, 0xba3c2be2, 0x0060c000, 0x3a37cd05, 0x458546f4)
  {
    hide Schedule, Rounds;
    NextWord(b, 64, 0x6380aea2, 0x651d16a0, 0x626383a1, 0xda9415ed, 0x7cd45c9d);
    NextWord(b, 65, 0x0ae55269, 0x62658ca1, 0x4ebf54de, 0x26380a16, 0x000f0000);
    NextWord(b, 66, 0x627b49a1, 0x458544d6, 0x3835b44b, 0x626383a1, 0xfb50753a);
    NextWord(b, 67, 0x7cd45c9d, 0x44584cb7, 0x0000f600, 0x4ebf54de, 0xec6765e8);
    NextWord(b, 68, 0x000f0000, 0x7ba06619, 0x1e84c7a3, 0x3835b44b, 0xba3c2be2);
    NextWord(b, 69, 0xfb50753a, 0x6380aea2, 0x98e04d98, 0x0000f600, 0x0060c000);
    NextWord(b, 70, 0xec6765e8, 0x0ae55269, 0x651d16a0, 0x1e84c7a3, 0x3a37cd05);
    NextWord(b, 71, 0xba3c2be2, 0x627b49a1, 0x62658ca1, 0x98e04d98, 0x458546f4);
    Turn(b, 48, Hash(0xbead02ca, 0xa01b846c, 0x8714787c, 0x503ca382, 0xfb86c6ab), 0xda9415ed,
         Hash(0xbaf39337, 0xbead02ca, 0x2806e11b, 0x8714787c, 0x503ca382));
    Turn(b, 49, Hash(0xbaf39337, 0xbead02ca, 0x2806e11b, 0x8714787c, 0x503ca382), 0x26380a16,
         Hash(0x120731c5, 0xbaf39337, 0xafab40b2, 0x2806e11b, 0x8714787c));
    Turn(b, 50, Hash(0x120731c5, 0xbaf39337, 0xafab40b2, 0x2806e11b, 0x8714787c), 0x626383a1,
         Hash(0x641db2ce, 0x120731c5, 0xeebce4cd, 0xafab40b2, 0x2806e11b));
    Turn(b, 51, Hash(0x641db2ce, 0x120731c5, 0xeebce4cd, 0xafab40b2, 0x2806e11b), 0x4ebf54de,
         Hash(0x3847ad66, 0x641db2ce, 0x4481cc71, 0xeebce4cd, 0xafab40b2));
    Turn(b, 52, Hash(0x3847ad66, 0x641db2ce, 0x4481cc71, 0xeebce4cd, 0xafab40b2), 0x3835b44b,
         Hash(0xe490436d, 0x3847ad66, 0x99076cb3, 0x4481cc71, 0xeebce4cd));
    Turn(b, 53, Hash(0xe490436d, 0x3847ad66, 0x99076cb3, 0x4481cc71, 0xeebce4cd), 0x0000f600,
         Hash(0x27e9f1d8, 0xe490436d, 0x8e11eb59, 0x99076cb3, 0x4481cc71));
    Turn(b, 54, Hash(0x27e9f1d8, 0xe490436d, 0x8e11eb59, 0x99076cb3, 0x4481cc71), 0x1e84c7a3,
         Hash(0x7b71f76d, 0x27e9f1d8, 0x792410db, 0x8e11eb59, 0x99076cb3));
    Turn(b, 55, Hash(0x7b71f76d, 0x27e9f1d8, 0x792410db, 0x8e11eb59, 0x99076cb3), 0x98e04d98,
         Hash(0x5e6456af, 0x7b71f76d, 0x09fa7c76, 0x792410db, 0x8e11eb59));
  }

  lemma Rounds56(b: seq<Byte>)
    requires |b| == BLOCK_BYTES
    requires Known(b, 56, Hash(0x5e6456af, 0x7b71f76d, 0x09fa7c76, 0x792410db, 0x8e11eb59),
          0x651d16a0, 0x62658ca1, 0x458544d6, 0x44584cb7, 0x7ba06619, 0x6380aea2, 0x0ae55269, 0x627b49a1,
          0x7cd45c9d, 0x000f0000, 0xfb50753a, 0xec6765e8, 0xba3c2be2, 0x0060c000, 0x3a37cd05, 0x458546f4)
    ensures Known(b, 64, Hash(0x6b61c9e1, 0xb66c020b, 0x9523272c, 0xf5d5b051, 0x8fd4b796),
          0x7cd45c9d, 0x000f0000, 0xfb50753a, 0xec6765e8, 0xba3c2be2, 0x0060c000, 0x3a37cd05, 0x458546f4,
          0xb8599dd6, 0x380a1a26, 0x01e02203, 0xe7cc3456, 0xe6e60b69, 0x00f60a00, 0x5795ef4f, 0x822e0879)
  {
    hide Schedule, Rounds;
    NextWord(b, 72, 0x0060c000, 0x7cd45c9d, 0x458544d6, 0x651d16a0, 0xb8599dd6);
    NextWord(b, 73, 0x3a37cd05, 0x000f0000, 0x44584cb7, 0x62658ca1, 0x380a1a26);
    NextWord(b, 74, 0x458546f4, 0xfb50753a, 0x7ba06619, 0x458544d6, 0x01e02203);
    NextWord(b, 75, 0xb8599dd6, 0xec6765e8, 0x6380aea2, 0x44584cb7, 0xe7cc3456);
    NextWord(b, 76, 0x380a1a26, 0xba3c2be2, 0x0ae55269, 0x7ba06619, 0xe6e60b69);
    NextWord(b, 77, 0x01e02203, 0x0060c000, 0x627b49a1, 0x6380aea2, 0x00f60a00);
    NextWord(b, 78, 0xe7cc3456, 0x3a37cd05, 0x7cd45c9d, 0x0ae55269, 0x5795ef4f);
    NextWord(b, 79, 0xe6e60b69, 0x458546f4, 0x000f0000, 0x627b49a1, 0x822e0879);
    Turn(b, 56, Hash(0x5e6456af, 0x7b71f76d, 0x09fa7c76, 0x792410db, 0x8e11eb59), 0x651d16a0,
         Hash(0xc846093f, 0x5e6456af, 0x5edc7ddb, 0x09fa7c76, 0x792410db));
    Turn(b, 57, Hash(0xc846093f, 0x5e6456af, 0x5edc7ddb, 0x09fa7c76, 0x792410db), 0x62658ca1,
         Hash(0xd262ff50, 0xc846093f, 0xd79915ab, 0x5edc7ddb, 0x09fa7c76));
    Turn(b, 58, Hash(0xd262ff50, 0xc846093f, 0xd79915ab, 0x5edc7ddb, 0x09fa7c76), 0x458544d6,
         Hash(0x09d785fd, 0xd262ff50, 0xf211824f, 0xd79915ab, 0x5edc7ddb));
    Turn(b, 59, Hash(0x09d785fd, 0xd262ff50, 0xf211824f, 0xd79915ab, 0x5edc7ddb), 0x44584cb7,
         Hash(0x3f52de5a, 0x09d785fd, 0x3498bfd4, 0xf211824f, 0xd79915ab));
    Turn(b, 60, Hash(0x3f52de5a, 0x09d785fd, 0x3498bfd4, 0xf211824f, 0xd79915ab), 0x7ba06619,
         Hash(0xd756c147, 0x3f52de5a, 0x4275e17f, 0x3498bfd4, 0xf211824f));
    Turn(b, 61, Hash(0xd756c147, 0x3f52de5a, 0x4275e17f, 0x3498bfd4, 0xf211824f), 0x6380aea2,
         Hash(0x548c9cb2, 0xd756c147, 0x8fd4b796, 0x4275e17f, 0x3498bfd4));
    Turn(b, 62, Hash(0x548c9cb2, 0xd756c147, 0x8fd4b796, 0x4275e17f, 0x3498bfd4), 0x0ae55269,
         Hash(0xb66c020b, 0x548c9cb2, 0xf5d5b051, 0x8fd4b796, 0x4275e17f));
    Turn(b, 63, Hash(0xb66c020b, 0x548c9cb2, 0xf5d5b051, 0x8fd4b796, 0x4275e17f), 0x627b49a1,
         Hash(0x6b61c9e1, 0xb66c020b, 0x9523272c, 0xf5d5b051, 0x8fd4b796));
  }

  lemma Rounds64(b: seq<Byte>)
    requires |b| == BLOCK_BYTES
    requires Known(b, 64, Hash(0x6b61c9e1, 0xb66c020b, 0x9523272c, 0xf5d5b051, 0x8fd4b796),
          0x7cd45c9d, 0x000f0000, 0xfb50753a, 0xec6765e8, 0xba3c2be2, 0x0060c000, 0x3a37cd05, 0x458546f4,
          0xb8599dd6, 0x380a1a26, 0x01e02203, 0xe7cc3456, 0xe6e60b69, 0x00f60a00, 0x5795ef4f, 0x822e0879)
    ensures Rounds(IV, b, 80) == Hash(0x42541b35, 0x5738d5e1, 0x21834873, 0x681e6df6, 0xd8fdf6ad)
  {
    hide Schedule, Rounds;
    Turn(b, 64, Hash(0x6b61c9e1, 0xb66c020b, 0x9523272c, 0xf5d5b051, 0x8fd4b796), 0x7cd45c9d,
         Hash(0x19dfa7ac, 0x6b61c9e1, 0xed9b0082, 0x9523272c, 0xf5d5b051));
    Turn(b, 65, Hash(0x19dfa7ac, 0x6b61c9e1, 0xed9b0082, 0x9523272c, 0xf5d5b051), 0x000f0000,
         Hash(0x101655f9, 0x19dfa7ac, 0x5ad87278, 0xed9b0082, 0x9523272c));
    Turn(b, 66, Hash(0x101655f9, 0x19dfa7ac, 0x5ad87278, 0xed9b0082, 0x9523272c), 0xfb50753a,
         Hash(0x0c3df2b4, 0x101655f9, 0x0677e9eb, 0x5ad87278, 0xed9b0082));
    Turn(b, 67, Hash(0x0c3df2b4, 0x101655f9, 0x0677e9eb, 0x5ad87278, 0xed9b0082), 0xec6765e8,
         Hash(0x78dd4d2b, 0x0c3df2b4, 0x4405957e, 0x0677e9eb, 0x5ad87278));
    Turn(b, 68, Hash(0x78dd4d2b, 0x0c3df2b4, 0x4405957e, 0x0677e9eb, 0x5ad87278), 0xba3c2be2,
         Hash(0x497093c0, 0x78dd4d2b, 0x030f7cad, 0x4405957e, 0x0677e9eb));
    Turn(b, 69, Hash(0x497093c0, 0x78dd4d2b, 0x030f7cad, 0x4405957e, 0x0677e9eb), 0x0060c000,
         Hash(0x3f2588c2, 0x497093c0, 0xde37534a, 0x030f7cad, 0x4405957e));
    Turn(b, 70, Hash(0x3f2588c2, 0x497093c0, 0xde37534a, 0x030f7cad, 0x4405957e), 0x3a37cd05,
         Hash(0xc199f8c7, 0x3f2588c2, 0x125c24f0, 0xde37534a, 0x030f7cad));
    Turn(b, 71, Hash(0xc199f8c7, 0x3f2588c2, 0x125c24f0, 0xde37534a, 0x030f7cad), 0x458546f4,
         Hash(0x39859de7, 0xc199f8c7, 0x8fc96230, 0x125c24f0, 0xde37534a));
    Turn(b, 72, Hash(0x39859de7, 0xc199f8c7, 0x8fc96230, 0x125c24f0, 0xde37534a), 0xb8599dd6,
         Hash(0xedb42de4, 0x39859de7, 0xf0667e31, 0x8fc96230, 0x125c24f0));
    Turn(b, 73, Hash(0xedb42de4, 0x39859de7, 0xf0667e31, 0x8fc96230, 0x125c24f0), 0x380a1a26,
         Hash(0x11793f6f, 0xedb42de4, 0xce616779, 0xf0667e31, 0x8fc96230));
    Turn(b, 74, Hash(0x11793f6f, 0xedb42de4, 0xce616779, 0xf0667e31, 0x8fc96230), 0x01e02203,
         Hash(0x5ee76897, 0x11793f6f, 0x3b6d0b79, 0xce616779, 0xf0667e31));
    Turn(b, 75, Hash(0x5ee76897, 0x11793f6f, 0x3b6d0b79, 0xce616779, 0xf0667e31), 0xe7cc3456,
         Hash(0x63f7dab7, 0x5ee76897, 0xc45e4fdb, 0x3b6d0b79, 0xce616779));
    Turn(b, 76, Hash(0x63f7dab7, 0x5ee76897, 0xc45e4fdb, 0x3b6d0b79, 0xce616779), 0xe6e60b69,
         Hash(0xa079b7d9, 0x63f7dab7, 0xd7b9da25, 0xc45e4fdb, 0x3b6d0b79));
    Turn(b, 77, Hash(0xa079b7d9, 0x63f7dab7, 0xd7b9da25, 0xc45e4fdb, 0x3b6d0b79), 0x00f60a00,
         Hash(0x860d21cc, 0xa079b7d9, 0xd8fdf6ad, 0xd7b9da25, 0xc45e4fdb));
    Turn(b, 78, Hash(0x860d21cc, 0xa079b7d9, 0xd8fdf6ad, 0xd7b9da25, 0xc45e4fdb), 0x5795ef4f,
         Hash(0x5738d5e1, 0x860d21cc, 0x681e6df6, 0xd8fdf6ad, 0xd7b9da25));
    Turn(b, 79, Hash(0x5738d5e1, 0x860d21cc, 0x681e6df6, 0xd8fdf6ad, 0xd7b9da25), 0x822e0879,
         Hash(0x42541b35, 0x5738d5e1, 0x21834873, 0x681e6df6, 0xd8fdf6ad));
  }

  function Abc(): (m: seq<Byte>)
    ensures |m| == 3
  {
    [0x61, 0x62, 0x63]
  }

  lemma AbcPadded()
    ensures var p := Padded(Abc());
            && |p| == 64 && p[..4] == [0x61, 0x62, 0x63, 0x80] && p[56..] == [0, 0, 0, 0, 0, 0, 0, 24]
            && forall i :: 4 <= i < 56 ==> p[i] == 0
  {
    assert PaddingZeros(3) == 52;
  }

  lemma AbcKnown(b: seq<Byte>)
    requires |b| == 64 && b[..4] == [0x61, 0x62, 0x63, 0x80] && b[56..] == [0, 0, 0, 0, 0, 0, 0, 24]
    requires forall i :: 4 <= i < 56 ==> b[i] == 0
    ensures Known(b, 0, Hash(0x67452301, 0xefcdab89, 0x98badcfe, 0x10325476, 0xc3d2e1f0),
          0x61626380, 0x00000000, 0x00000000, 0x00000000, 0x00000000, 0x00000000, 0x00000000, 0x00000000,
          0x00000000, 0x00000000, 0x00000000, 0x00000000, 0x00000000, 0x00000000, 0x00000000, 0x00000018)
  {
    assert b[0] == 0x61 && b[1] == 0x62 && b[2] == 0x63 && b[3] == 0x80;
    assert b[60] == 0 && b[61] == 0 && b[62] == 0 && b[63] == 24;
  }

  lemma OneBlockIs(b: seq<Byte>, r: Hash)
    requires |b| == BLOCK_BYTES && Rounds(IV, b, 80) == r
    ensures Blocks(IV, b) ==
            Hash(Add(r.a, IV.a), Add(r.b, IV.b), Add(r.c, IV.c), Add(r.d, IV.d), Add(r.e, IV.e))
  {
    hide Rounds, Add;
    assert b[..BLOCK_BYTES] == b && b[BLOCK_BYTES..] == [];
    assert Blocks(Compress(IV, b), []) == Compress(IV, b);
  }

  // The five sums, as bytes
  lemma AbcSums()
    ensures var r := Hash(0x42541b35, 0x5738d5e1, 0x21834873, 0x681e6df6, 0xd8fdf6ad);
            HashBytes(Hash(Add(r.a, IV.a), Add(r.b, IV.b), Add(r.c, IV.c), Add(r.d, IV.d), Add(r.e, IV.e))) ==
            [0xa9, 0x99, 0x3e, 0x36, 0x47, 0x06, 0x81, 0x6a, 0xba, 0x3e,
             0x25, 0x71, 0x78, 0x50, 0xc2, 0x6c, 0x9c, 0xd0, 0xd8, 0x9d]
  {
  }

  // a9993e36 4706816a ba3e2571 7850c26c 9cd0d89d
  lemma DigestOfAbc()
    ensures Sha1(Abc()) == [0xa9, 0x99, 0x3e, 0x36, 0x47, 0x06, 0x81, 0x6a, 0xba, 0x3e,
                            0x25, 0x71, 0x78, 0x50, 0xc2, 0x6c, 0x9c, 0xd0, 0xd8, 0x9d]
  {
    hide Rounds, Schedule, HashBytes, Padded, Add, Known, Blocks;
    var b := Padded(Abc());
    AbcPadded();
    AbcKnown(b);
    Rounds0(b);
    Rounds8(b);
    Rounds16(b);
    Rounds24(b);
    Rounds32(b);
    Rounds40(b);
    Rounds48(b);
    Rounds56(b);
    Rounds64(b);
    OneBlockIs(b, Hash(0x42541b35, 0x5738d5e1, 0x21834873, 0x681e6df6, 0xd8fdf6ad));
    AbcSums();
  }
}
