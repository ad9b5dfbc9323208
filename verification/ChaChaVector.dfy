/** The block of section 2.3.2 of RFC 8439: it fixes the number of rounds, their order and the sum at their end. */
module ChaChaVector {
  import opened Words
  import opened ChaCha

  predicate Apart(a: nat, i: nat, j: nat, k: nat, l: nat) {
    a != i && a != j && a != k && a != l
  }

  lemma Elsewhere(s: State, i: nat, j: nat, k: nat, l: nat, q: Quad, a: nat, b: nat, c: nat, d: nat)
    requires Distinct(i, j, k, l) && Distinct(a, b, c, d)
    requires Apart(a, i, j, k, l) && Apart(b, i, j, k, l) && Apart(c, i, j, k, l) && Apart(d, i, j, k, l)
    ensures At(Put(s, i, j, k, l, q), a, b, c, d) == At(s, a, b, c, d)
  {
  }

  // A column round, given its four quarter rounds, is what they put in the four places.
  lemma ColumnsPut(s: State, p: Quad, q: Quad, r: Quad, t: Quad)
    requires QuarterRound(At(s, 0, 4, 8, 12)) == p && QuarterRound(At(s, 1, 5, 9, 13)) == q
    requires QuarterRound(At(s, 2, 6, 10, 14)) == r && QuarterRound(At(s, 3, 7, 11, 15)) == t
    ensures ColumnRound(s) ==
            Put(Put(Put(Put(s, 0, 4, 8, 12, p), 1, 5, 9, 13, q), 2, 6, 10, 14, r), 3, 7, 11, 15, t)
  {
    hide QuarterRound, Put, At;
    var s1 := Put(s, 0, 4, 8, 12, p);
    var s2 := Put(s1, 1, 5, 9, 13, q);
    Elsewhere(s, 0, 4, 8, 12, p, 1, 5, 9, 13);
    Elsewhere(s, 0, 4, 8, 12, p, 2, 6, 10, 14);
    Elsewhere(s1, 1, 5, 9, 13, q, 2, 6, 10, 14);
    Elsewhere(s, 0, 4, 8, 12, p, 3, 7, 11, 15);
    Elsewhere(s1, 1, 5, 9, 13, q, 3, 7, 11, 15);
    Elsewhere(s2, 2, 6, 10, 14, r, 3, 7, 11, 15);
  }

  lemma ColumnsQuads(x0: Word, x1: Word, x2: Word, x3: Word, x4: Word, x5: Word, x6: Word, x7: Word, x8: Word,
               x9: Word, x10: Word, x11: Word, x12: Word, x13: Word, x14: Word, x15: Word)
    ensures var s: State := [x0, x1, x2, x3, x4, x5, x6, x7, x8, x9, x10, x11, x12, x13, x14, x15];
            && At(s, 0, 4, 8, 12) == Quad(x0, x4, x8, x12) && At(s, 1, 5, 9, 13) == Quad(x1, x5, x9, x13)
            && At(s, 2, 6, 10, 14) == Quad(x2, x6, x10, x14) && At(s, 3, 7, 11, 15) == Quad(x3, x7, x11, x15)
  {
  }

  lemma ColumnsPlaces<T>(s: seq<T>, pa: T, pb: T, pc: T, pd: T, qa: T, qb: T, qc: T, qd: T,
                        ra: T, rb: T, rc: T, rd: T, ta: T, tb: T, tc: T, td: T)
    requires |s| == 16
    ensures s[0 := pa][4 := pb][8 := pc][12 := pd]
             [1 := qa][5 := qb][9 := qc][13 := qd]
             [2 := ra][6 := rb][10 := rc][14 := rd]
             [3 := ta][7 := tb][11 := tc][15 := td] ==
            [pa, qa, ra, ta, pb, qb, rb, tb, pc, qc, rc, tc, pd, qd, rd, td]
  {
  }

  lemma ColumnsAre(s: State, p: Quad, q: Quad, r: Quad, t: Quad)
    ensures Put(Put(Put(Put(s, 0, 4, 8, 12, p), 1, 5, 9, 13, q), 2, 6, 10, 14, r), 3, 7, 11, 15, t) ==
            [p.a, q.a, r.a, t.a, p.b, q.b, r.b, t.b, p.c, q.c, r.c, t.c, p.d, q.d, r.d, t.d]
  {
    ColumnsPlaces(s, p.a, p.b, p.c, p.d, q.a, q.b, q.c, q.d, r.a, r.b, r.c, r.d, t.a, t.b, t.c, t.d);
  }

  lemma Columns(x0: Word, x1: Word, x2: Word, x3: Word, x4: Word, x5: Word, x6: Word, x7: Word, x8: Word,
               x9: Word, x10: Word, x11: Word, x12: Word, x13: Word, x14: Word, x15: Word,
               p: Quad, q: Quad, r: Quad, t: Quad)
    requires QuarterRound(Quad(x0, x4, x8, x12)) == p && QuarterRound(Quad(x1, x5, x9, x13)) == q
    requires QuarterRound(Quad(x2, x6, x10, x14)) == r && QuarterRound(Quad(x3, x7, x11, x15)) == t
    ensures ColumnRound([x0, x1, x2, x3, x4, x5, x6, x7, x8, x9, x10, x11, x12, x13, x14, x15]) ==
            [p.a, q.a, r.a, t.a, p.b, q.b, r.b, t.b, p.c, q.c, r.c, t.c, p.d, q.d, r.d, t.d]
  {
    hide QuarterRound, ColumnRound, At, Put;
    var s: State := [x0, x1, x2, x3, x4, x5, x6, x7, x8, x9, x10, x11, x12, x13, x14, x15];
    ColumnsQuads(x0, x1, x2, x3, x4, x5, x6, x7, x8, x9, x10, x11, x12, x13, x14, x15);
    ColumnsPut(s, p, q, r, t);
    ColumnsAre(s, p, q, r, t);
  }

  // A diagonal round, given its four quarter rounds, is what they put in the four places.
  lemma DiagonalsPut(s: State, p: Quad, q: Quad, r: Quad, t: Quad)
    requires QuarterRound(At(s, 0, 5, 10, 15)) == p && QuarterRound(At(s, 1, 6, 11, 12)) == q
    requires QuarterRound(At(s, 2, 7, 8, 13)) == r && QuarterRound(At(s, 3, 4, 9, 14)) == t
    ensures DiagonalRound(s) ==
            Put(Put(Put(Put(s, 0, 5, 10, 15, p), 1, 6, 11, 12, q), 2, 7, 8, 13, r), 3, 4, 9, 14, t)
  {
    hide QuarterRound, Put, At;
    var s1 := Put(s, 0, 5, 10, 15, p);
    var s2 := Put(s1, 1, 6, 11, 12, q);
    Elsewhere(s, 0, 5, 10, 15, p, 1, 6, 11, 12);
    Elsewhere(s, 0, 5, 10, 15, p, 2, 7, 8, 13);
    Elsewhere(s1, 1, 6, 11, 12, q, 2, 7, 8, 13);
    Elsewhere(s, 0, 5, 10, 15, p, 3, 4, 9, 14);
    Elsewhere(s1, 1, 6, 11, 12, q, 3, 4, 9, 14);
    Elsewhere(s2, 2, 7, 8, 13, r, 3, 4, 9, 14);
  }

  lemma DiagonalsQuads(x0: Word, x1: Word, x2: Word, x3: Word, x4: Word, x5: Word, x6: Word, x7: Word, x8: Word,
               x9: Word, x10: Word, x11: Word, x12: Word, x13: Word, x14: Word, x15: Word)
    ensures var s: State := [x0, x1, x2, x3, x4, x5, x6, x7, x8, x9, x10, x11, x12, x13, x14, x15];
            && At(s, 0, 5, 10, 15) == Quad(x0, x5, x10, x15) && At(s, 1, 6, 11, 12) == Quad(x1, x6, x11, x12)
            && At(s, 2, 7, 8, 13) == Quad(x2, x7, x8, x13) && At(s, 3, 4, 9, 14) == Quad(x3, x4, x9, x14)
  {
  }

  lemma DiagonalsPlaces<T>(s: seq<T>, pa: T, pb: T, pc: T, pd: T, qa: T, qb: T, qc: T, qd: T,
                        ra: T, rb: T, rc: T, rd: T, ta: T, tb: T, tc: T, td: T)
    requires |s| == 16
    ensures s[0 := pa][5 := pb][10 := pc][15 := pd]
             [1 := qa][6 := qb][11 := qc][12 := qd]
             [2 := ra][7 := rb][8 := rc][13 := rd]
             [3 := ta][4 := tb][9 := tc][14 := td] ==
            [pa, qa, ra, ta, tb, pb, qb, rb, rc, tc, pc, qc, qd, rd, td, pd]
  {
  }

  lemma DiagonalsAre(s: State, p: Quad, q: Quad, r: Quad, t: Quad)
    ensures Put(Put(Put(Put(s, 0, 5, 10, 15, p), 1, 6, 11, 12, q), 2, 7, 8, 13, r), 3, 4, 9, 14, t) ==
            [p.a, q.a, r.a, t.a, t.b, p.b, q.b, r.b, r.c, t.c, p.c, q.c, q.d, r.d, t.d, p.d]
  {
    DiagonalsPlaces(s, p.a, p.b, p.c, p.d, q.a, q.b, q.c, q.d, r.a, r.b, r.c, r.d, t.a, t.b, t.c, t.d);
  }

  lemma Diagonals(x0: Word, x1: Word, x2: Word, x3: Word, x4: Word, x5: Word, x6: Word, x7: Word, x8: Word,
               x9: Word, x10: Word, x11: Word, x12: Word, x13: Word, x14: Word, x15: Word,
               p: Quad, q: Quad, r: Quad, t: Quad)
    requires QuarterRound(Quad(x0, x5, x10, x15)) == p && QuarterRound(Quad(x1, x6, x11, x12)) == q
    requires QuarterRound(Quad(x2, x7, x8, x13)) == r && QuarterRound(Quad(x3, x4, x9, x14)) == t
    ensures DiagonalRound([x0, x1, x2, x3, x4, x5, x6, x7, x8, x9, x10, x11, x12, x13, x14, x15]) ==
            [p.a, q.a, r.a, t.a, t.b, p.b, q.b, r.b, r.c, t.c, p.c, q.c, q.d, r.d, t.d, p.d]
  {
    hide QuarterRound, DiagonalRound, At, Put;
    var s: State := [x0, x1, x2, x3, x4, x5, x6, x7, x8, x9, x10, x11, x12, x13, x14, x15];
    DiagonalsQuads(x0, x1, x2, x3, x4, x5, x6, x7, x8, x9, x10, x11, x12, x13, x14, x15);
    DiagonalsPut(s, p, q, r, t);
    DiagonalsAre(s, p, q, r, t);
  }

  lemma Double0()
    ensures DoubleRound(
              [0x61707865, 0x3320646e, 0x79622d32, 0x6b206574, 0x03020100, 0x07060504, 0x0b0a0908, 0x0f0e0d0c,
               0x13121110, 0x17161514, 0x1b1a1918, 0x1f1e1d1c, 0x00000001, 0x09000000, 0x4a000000, 0x00000000]) ==
            [0xcd52e917, 0x85ab03b4, 0xb3457395, 0xf96de7dd, 0xc4b7cd22, 0x5c2e187a, 0xc95eb461, 0x316c801a,
             0x7bf7d740, 0x7eddd644, 0xf1a1bdf5, 0x761246ca, 0x6b0d58a3, 0x6798471a, 0xd737f167, 0xf173888d]
  {
    hide ColumnRound, DiagonalRound;
    Columns(0x61707865, 0x3320646e, 0x79622d32, 0x6b206574, 0x03020100, 0x07060504, 0x0b0a0908, 0x0f0e0d0c,
            0x13121110, 0x17161514, 0x1b1a1918, 0x1f1e1d1c, 0x00000001, 0x09000000, 0x4a000000, 0x00000000,
      Quad(0xabbaa25c, 0x3a465196, 0x6b3ca454, 0xdec62ed2), Quad(0x1efa51ea, 0x1c7e64f6, 0x08eb14b1, 0x8862cc77),
      Quad(0x7354fbdf, 0xb12fb628, 0xbf8a9ac9, 0x6e35b345), Quad(0x83d2dc69, 0xf05b6976, 0xe444df3b, 0x52a647f1));
    Diagonals(0xabbaa25c, 0x1efa51ea, 0x7354fbdf, 0x83d2dc69, 0x3a465196, 0x1c7e64f6, 0xb12fb628, 0xf05b6976,
              0x6b3ca454, 0x08eb14b1, 0xbf8a9ac9, 0xe444df3b, 0xdec62ed2, 0x8862cc77, 0x6e35b345, 0x52a647f1,
      Quad(0xcd52e917, 0x5c2e187a, 0xf1a1bdf5, 0xf173888d), Quad(0x85ab03b4, 0xc95eb461, 0x761246ca, 0x6b0d58a3),
      Quad(0xb3457395, 0x316c801a, 0x7bf7d740, 0x6798471a), Quad(0xf96de7dd, 0xc4b7cd22, 0x7eddd644, 0xd737f167));
  }

  lemma Double1()
    ensures DoubleRound(
              [0xcd52e917, 0x85ab03b4, 0xb3457395, 0xf96de7dd, 0xc4b7cd22, 0x5c2e187a, 0xc95eb461, 0x316c801a,
               0x7bf7d740, 0x7eddd644, 0xf1a1bdf5, 0x761246ca, 0x6b0d58a3, 0x6798471a, 0xd737f167, 0xf173888d]) ==
            [0xcf1a7584, 0x048927ec, 0x54051fda, 0xc244ff28, 0x901d2f40, 0x7974b81c, 0x378dcfb4, 0xcd47fd0e,
             0x2dafb216, 0x27c89cd6, 0xcd3c9aa0, 0x79fc89c7, 0x10aef18d, 0x16218765, 0x68f76705, 0x04d6ee22]
  {
    hide ColumnRound, DiagonalRound;
    Columns(0xcd52e917, 0x85ab03b4, 0xb3457395, 0xf96de7dd, 0xc4b7cd22, 0x5c2e187a, 0xc95eb461, 0x316c801a,
            0x7bf7d740, 0x7eddd644, 0xf1a1bdf5, 0x761246ca, 0x6b0d58a3, 0x6798471a, 0xd737f167, 0xf173888d,
      Quad(0xe3e1111b, 0xd65b5b5b, 0xe67aec54, 0x7be81c0d), Quad(0xa6291491, 0xf56af099, 0xf7a52d82, 0x1d92d0fd),
      Quad(0x5a82b80c, 0x4ccc8103, 0xdb470914, 0x13139f8c), Quad(0x4500fd45, 0xc94d29e2, 0xdfb40f1d, 0x7a26ecaa));
    Diagonals(0xe3e1111b, 0xa6291491, 0x5a82b80c, 0x4500fd45, 0xd65b5b5b, 0xf56af099, 0x4ccc8103, 0xc94d29e2,
              0xe67aec54, 0xf7a52d82, 0xdb470914, 0xdfb40f1d, 0x7be81c0d, 0x1d92d0fd, 0x13139f8c, 0x7a26ecaa,
      Quad(0xcf1a7584, 0x7974b81c, 0xcd3c9aa0, 0x04d6ee22), Quad(0x048927ec, 0x378dcfb4, 0x79fc89c7, 0x10aef18d),
      Quad(0x54051fda, 0xcd47fd0e, 0x2dafb216, 0x16218765), Quad(0xc244ff28, 0x901d2f40, 0x27c89cd6, 0x68f76705));
  }

  lemma Double2()
    ensures DoubleRound(
              [0xcf1a7584, 0x048927ec, 0x54051fda, 0xc244ff28, 0x901d2f40, 0x7974b81c, 0x378dcfb4, 0xcd47fd0e,
               0x2dafb216, 0x27c89cd6, 0xcd3c9aa0, 0x79fc89c7, 0x10aef18d, 0x16218765, 0x68f76705, 0x04d6ee22]) ==
            [0x03a14032, 0x66b15927, 0x9d6b6b42, 0xb84c4109, 0xa7143ae0, 0xa09b33dd, 0xa5daaf88, 0x2fd91a73,
             0xc90c6b18, 0x5a202413, 0xc20e01b6, 0x72cd6b74, 0xba35d777, 0xb360f1bf, 0x8178315b, 0x2cd11b1a]
  {
    hide ColumnRound, DiagonalRound;
    Columns(0xcf1a7584, 0x048927ec, 0x54051fda, 0xc244ff28, 0x901d2f40, 0x7974b81c, 0x378dcfb4, 0xcd47fd0e,
            0x2dafb216, 0x27c89cd6, 0xcd3c9aa0, 0x79fc89c7, 0x10aef18d, 0x16218765, 0x68f76705, 0x04d6ee22,
      Quad(0xa22695f2, 0x1ece4458, 0xf2d36da6, 0x6fda6bf7), Quad(0xa908cf6c, 0xe82b726f, 0xf4dab980, 0x65a4b0ce),
      Quad(0xe6ae05b2, 0x5a21ab90, 0x7baf5573, 0x25e6d76e), Quad(0xfe0ff04b, 0x87698c64, 0xa78c270d, 0x1b7b11ec));
    Diagonals(0xa22695f2, 0xa908cf6c, 0xe6ae05b2, 0xfe0ff04b, 0x1ece4458, 0xe82b726f, 0x5a21ab90, 0x87698c64,
              0xf2d36da6, 0xf4dab980, 0x7baf5573, 0xa78c270d, 0x6fda6bf7, 0x65a4b0ce, 0x25e6d76e, 0x1b7b11ec,
      Quad(0x03a14032, 0xa09b33dd, 0xc20e01b6, 0x2cd11b1a), Quad(0x66b15927, 0xa5daaf88, 0x72cd6b74, 0xba35d777),
      Quad(0x9d6b6b42, 0x2fd91a73, 0xc90c6b18, 0xb360f1bf), Quad(0xb84c4109, 0xa7143ae0, 0x5a202413, 0x8178315b));
  }

  lemma Double3()
    ensures DoubleRound(
              [0x03a14032, 0x66b15927, 0x9d6b6b42, 0xb84c4109, 0xa7143ae0, 0xa09b33dd, 0xa5daaf88, 0x2fd91a73,
               0xc90c6b18, 0x5a202413, 0xc20e01b6, 0x72cd6b74, 0xba35d777, 0xb360f1bf, 0x8178315b, 0x2cd11b1a]) ==
            [0x9a2d3589, 0x0b23fc4e, 0x40af3b6b, 0xceea8144, 0x0a1bffc6, 0x5e5993f7, 0x9904c2e7, 0x0d334718,
             0xe46c6354, 0xc9503229, 0x04fef5aa, 0xf8933f72, 0x2687d476, 0x54e65231, 0x3594ffc5, 0x2b3bb2ca]
  {
    hide ColumnRound, DiagonalRound;
    Columns(0x03a14032, 0x66b15927, 0x9d6b6b42, 0xb84c4109, 0xa7143ae0, 0xa09b33dd, 0xa5daaf88, 0x2fd91a73,
            0xc90c6b18, 0x5a202413, 0xc20e01b6, 0x72cd6b74, 0xba35d777, 0xb360f1bf, 0x8178315b, 0x2cd11b1a,
      Quad(0xfecd0838, 0xcedf6624, 0x1d8a33ea, 0xa818b852), Quad(0x160ab468, 0xb11de6c4, 0x87dc1ca9, 0xb100446a),
      Quad(0x9a0ddf4e, 0xbd7810ef, 0x89bd34a5, 0x9c1d70b1), Quad(0xbac7154a, 0xd22b5643, 0x5505ef62, 0xa1d1befa));
    Diagonals(0xfecd0838, 0x160ab468, 0x9a0ddf4e, 0xbac7154a, 0xcedf6624, 0xb11de6c4, 0xbd7810ef, 0xd22b5643,
              0x1d8a33ea, 0x87dc1ca9, 0x89bd34a5, 0x5505ef62, 0xa818b852, 0xb100446a, 0x9c1d70b1, 0xa1d1befa,
      Quad(0x9a2d3589, 0x5e5993f7, 0x04fef5aa, 0x2b3bb2ca), Quad(0x0b23fc4e, 0x9904c2e7, 0xf8933f72, 0x2687d476),
      Quad(0x40af3b6b, 0x0d334718, 0xe46c6354, 0x54e65231), Quad(0xceea8144, 0x0a1bffc6, 0xc9503229, 0x3594ffc5));
  }

  lemma Double4()
    ensures DoubleRound(
              [0x9a2d3589, 0x0b23fc4e, 0x40af3b6b, 0xceea8144, 0x0a1bffc6, 0x5e5993f7, 0x9904c2e7, 0x0d334718,
               0xe46c6354, 0xc9503229, 0x04fef5aa, 0xf8933f72, 0x2687d476, 0x54e65231, 0x3594ffc5, 0x2b3bb2ca]) ==
            [0xc53318c5, 0xca325d96, 0x7e7d11cb, 0x3404e2ca, 0x26d7cf73, 0x6088d379, 0xc0f0e9bd, 0xe310cdb9,
             0xae2ca8db, 0x42f67c72, 0x71669aca, 0x975c171d, 0x9e5ec228, 0x7d85a9f3, 0x201d0756, 0x63fa6953]
  {
    hide ColumnRound, DiagonalRound;
    Columns(0x9a2d3589, 0x0b23fc4e, 0x40af3b6b, 0xceea8144, 0x0a1bffc6, 0x5e5993f7, 0x9904c2e7, 0x0d334718,
            0xe46c6354, 0xc9503229, 0x04fef5aa, 0xf8933f72, 0x2687d476, 0x54e65231, 0x3594ffc5, 0x2b3bb2ca,
      Quad(0x85e7824a, 0x1c133ea1, 0xa3a66a86, 0xde008464), Quad(0x4940cd9e, 0xbba40b0f, 0xc0b4754f, 0x34f0058b),
      Quad(0xfbe7684b, 0x9413992a, 0x771b4ecb, 0x70846cfa), Quad(0x7335d03d, 0xa4ab2040, 0x165151a1, 0xa3271b09));
    Diagonals(0x85e7824a, 0x4940cd9e, 0xfbe7684b, 0x7335d03d, 0x1c133ea1, 0xbba40b0f, 0x9413992a, 0xa4ab2040,
              0xa3a66a86, 0xc0b4754f, 0x771b4ecb, 0x165151a1, 0xde008464, 0x34f0058b, 0x70846cfa, 0xa3271b09,
      Quad(0xc53318c5, 0x6088d379, 0x71669aca, 0x63fa6953), Quad(0xca325d96, 0xc0f0e9bd, 0x975c171d, 0x9e5ec228),
      Quad(0x7e7d11cb, 0xe310cdb9, 0xae2ca8db, 0x7d85a9f3), Quad(0x3404e2ca, 0x26d7cf73, 0x42f67c72, 0x201d0756));
  }

  lemma Double5()
    ensures DoubleRound(
              [0xc53318c5, 0xca325d96, 0x7e7d11cb, 0x3404e2ca, 0x26d7cf73, 0x6088d379, 0xc0f0e9bd, 0xe310cdb9,
               0xae2ca8db, 0x42f67c72, 0x71669aca, 0x975c171d, 0x9e5ec228, 0x7d85a9f3, 0x201d0756, 0x63fa6953]) ==
            [0x04a3131a, 0x66176309, 0x0415bab1, 0x61b880a2, 0x36cc86c7, 0xbf8a4465, 0xf77dd720, 0xfc0bdc90,
             0x07d13aca, 0xeb0be9af, 0x61599491, 0x918512dc, 0x33b6686d, 0x795cc671, 0xc0049972, 0xa0a81bde]
  {
    hide ColumnRound, DiagonalRound;
    Columns(0xc53318c5, 0xca325d96, 0x7e7d11cb, 0x3404e2ca, 0x26d7cf73, 0x6088d379, 0xc0f0e9bd, 0xe310cdb9,
            0xae2ca8db, 0x42f67c72, 0x71669aca, 0x975c171d, 0x9e5ec228, 0x7d85a9f3, 0x201d0756, 0x63fa6953,
      Quad(0x9950b826, 0x2121065a, 0x19078de2, 0x40ca72b3), Quad(0xcac7ccc6, 0xc12bdadb, 0x178ecc02, 0x3b9bf852),
      Quad(0x84a67673, 0xcae3acd1, 0xe6adbdb2, 0x78690378), Quad(0xdb3109a6, 0x594616cb, 0x52a9d50e, 0xe17d4902));
    Diagonals(0x9950b826, 0xcac7ccc6, 0x84a67673, 0xdb3109a6, 0x2121065a, 0xc12bdadb, 0xcae3acd1, 0x594616cb,
              0x19078de2, 0x178ecc02, 0xe6adbdb2, 0x52a9d50e, 0x40ca72b3, 0x3b9bf852, 0x78690378, 0xe17d4902,
      Quad(0x04a3131a, 0xbf8a4465, 0x61599491, 0xa0a81bde), Quad(0x66176309, 0xf77dd720, 0x918512dc, 0x33b6686d),
      Quad(0x0415bab1, 0xfc0bdc90, 0x07d13aca, 0x795cc671), Quad(0x61b880a2, 0x36cc86c7, 0xeb0be9af, 0xc0049972));
  }

  lemma Double6()
    ensures DoubleRound(
              [0x04a3131a, 0x66176309, 0x0415bab1, 0x61b880a2, 0x36cc86c7, 0xbf8a4465, 0xf77dd720, 0xfc0bdc90,
               0x07d13aca, 0xeb0be9af, 0x61599491, 0x918512dc, 0x33b6686d, 0x795cc671, 0xc0049972, 0xa0a81bde]) ==
            [0x9b70f51f, 0x7ea8ac11, 0x21e54da9, 0xca393b2f, 0x93b08686, 0x6a4c50ae, 0x19212a5a, 0x9b032958,
             0xd839165e, 0x4c06e28a, 0xd3fde99e, 0x26acc13d, 0xa609f555, 0x2c246549, 0x95151853, 0x2c847a0d]
  {
    hide ColumnRound, DiagonalRound;
    Columns(0x04a3131a, 0x66176309, 0x0415bab1, 0x61b880a2, 0x36cc86c7, 0xbf8a4465, 0xf77dd720, 0xfc0bdc90,
            0x07d13aca, 0xeb0be9af, 0x61599491, 0x918512dc, 0x33b6686d, 0x795cc671, 0xc0049972, 0xa0a81bde,
      Quad(0x57c5e6da, 0x8e85d82f, 0x434b4749, 0x49ee03a6), Quad(0x35ce46a8, 0xb4819d06, 0x1d459c00, 0xd11a5554),
      Quad(0x0c041bb9, 0xb63be200, 0x111cfe2c, 0xa7202e04), Quad(0xfa91df79, 0xacd221e4, 0x55942604, 0x7d2215bc));
    Diagonals(0x57c5e6da, 0x35ce46a8, 0x0c041bb9, 0xfa91df79, 0x8e85d82f, 0xb4819d06, 0xb63be200, 0xacd221e4,
              0x434b4749, 0x1d459c00, 0x111cfe2c, 0x55942604, 0x49ee03a6, 0xd11a5554, 0xa7202e04, 0x7d2215bc,
      Quad(0x9b70f51f, 0x6a4c50ae, 0xd3fde99e, 0x2c847a0d), Quad(0x7ea8ac11, 0x19212a5a, 0x26acc13d, 0xa609f555),
      Quad(0x21e54da9, 0x9b032958, 0xd839165e, 0x2c246549), Quad(0xca393b2f, 0x93b08686, 0x4c06e28a, 0x95151853));
  }

  lemma Double7()
    ensures DoubleRound(
              [0x9b70f51f, 0x7ea8ac11, 0x21e54da9, 0xca393b2f, 0x93b08686, 0x6a4c50ae, 0x19212a5a, 0x9b032958,
               0xd839165e, 0x4c06e28a, 0xd3fde99e, 0x26acc13d, 0xa609f555, 0x2c246549, 0x95151853, 0x2c847a0d]) ==
            [0xca5c85dd, 0x93a4f90e, 0xd9f0df58, 0x26dd82dd, 0x982563f8, 0x712aa9ff, 0x279a61e8, 0x970f72bd,
             0x1c25931a, 0x5180bb10, 0x779c27e7, 0x54077e08, 0xa9b751fb, 0x382f3ce2, 0x8db1757d, 0xcc38080b]
  {
    hide ColumnRound, DiagonalRound;
    Columns(0x9b70f51f, 0x7ea8ac11, 0x21e54da9, 0xca393b2f, 0x93b08686, 0x6a4c50ae, 0x19212a5a, 0x9b032958,
            0xd839165e, 0x4c06e28a, 0xd3fde99e, 0x26acc13d, 0xa609f555, 0x2c246549, 0x95151853, 0x2c847a0d,
      Quad(0xc0b18aee, 0xdeb54e9c, 0xa82d65d4, 0x4103c64e), Quad(0x087445ba, 0x802c883b, 0x687f11eb, 0x82816a91),
      Quad(0x36e52ad9, 0x06e86889, 0xe9d36207, 0xb584ca56), Quad(0xa777426a, 0x3c002680, 0x4242ddae, 0xfd0bd2b9));
    Diagonals(0xc0b18aee, 0x087445ba, 0x36e52ad9, 0xa777426a, 0xdeb54e9c, 0x802c883b, 0x06e86889, 0x3c002680,
              0xa82d65d4, 0x687f11eb, 0xe9d36207, 0x4242ddae, 0x4103c64e, 0x82816a91, 0xb584ca56, 0xfd0bd2b9,
      Quad(0xca5c85dd, 0x712aa9ff, 0x779c27e7, 0xcc38080b), Quad(0x93a4f90e, 0x279a61e8, 0x54077e08, 0xa9b751fb),
      Quad(0xd9f0df58, 0x970f72bd, 0x1c25931a, 0x382f3ce2), Quad(0x26dd82dd, 0x982563f8, 0x5180bb10, 0x8db1757d));
  }

  lemma Double8()
    ensures DoubleRound(
              [0xca5c85dd, 0x93a4f90e, 0xd9f0df58, 0x26dd82dd, 0x982563f8, 0x712aa9ff, 0x279a61e8, 0x970f72bd,
               0x1c25931a, 0x5180bb10, 0x779c27e7, 0x54077e08, 0xa9b751fb, 0x382f3ce2, 0x8db1757d, 0xcc38080b]) ==
            [0xb6b87de6, 0x9a016148, 0x93859815, 0x4915e6cc, 0xdc33c122, 0x98e18fa3, 0x5ffbe8fc, 0xf7154b8b,
             0x28c1fcb3, 0xc4b38f9d, 0x83e2f5d7, 0x7d24b98b, 0x21078b22, 0xb193e7a3, 0xb2f49389, 0x6cde6026]
  {
    hide ColumnRound, DiagonalRound;
    Columns(0xca5c85dd, 0x93a4f90e, 0xd9f0df58, 0x26dd82dd, 0x982563f8, 0x712aa9ff, 0x279a61e8, 0x970f72bd,
            0x1c25931a, 0x5180bb10, 0x779c27e7, 0x54077e08, 0xa9b751fb, 0x382f3ce2, 0x8db1757d, 0xcc38080b,
      Quad(0x765c6e9c, 0x9046ecaa, 0x46fa091e, 0x72a5aace), Quad(0x5ab09b11, 0x7b88d882, 0x5117e9b5, 0x5fa7f1c5),
      Quad(0x3ee7da04, 0xb9b577dd, 0x862ff22b, 0xda563e0a), Quad(0x37c31203, 0x156de7ed, 0xa3fcc7a6, 0x5263d7ca));
    Diagonals(0x765c6e9c, 0x5ab09b11, 0x3ee7da04, 0x37c31203, 0x9046ecaa, 0x7b88d882, 0xb9b577dd, 0x156de7ed,
              0x46fa091e, 0x5117e9b5, 0x862ff22b, 0xa3fcc7a6, 0x72a5aace, 0x5fa7f1c5, 0xda563e0a, 0x5263d7ca,
      Quad(0xb6b87de6, 0x98e18fa3, 0x83e2f5d7, 0x6cde6026), Quad(0x9a016148, 0x5ffbe8fc, 0x7d24b98b, 0x21078b22),
      Quad(0x93859815, 0xf7154b8b, 0x28c1fcb3, 0xb193e7a3), Quad(0x4915e6cc, 0xdc33c122, 0xc4b38f9d, 0xb2f49389));
  }

  lemma Double9()
    ensures DoubleRound(
              [0xb6b87de6, 0x9a016148, 0x93859815, 0x4915e6cc, 0xdc33c122, 0x98e18fa3, 0x5ffbe8fc, 0xf7154b8b,
               0x28c1fcb3, 0xc4b38f9d, 0x83e2f5d7, 0x7d24b98b, 0x21078b22, 0xb193e7a3, 0xb2f49389, 0x6cde6026]) ==
            [0x837778ab, 0xe238d763, 0xa67ae21e, 0x5950bb2f, 0xc4f2d0c7, 0xfc62bb2f, 0x8fa018fc, 0x3f5ec7b7,
             0x335271c2, 0xf29489f3, 0xeabda8fc, 0x82e46ebd, 0xd19c12b4, 0xb04e16de, 0x9e83d0cb, 0x4e3c50a2]
  {
    hide ColumnRound, DiagonalRound;
    Columns(0xb6b87de6, 0x9a016148, 0x93859815, 0x4915e6cc, 0xdc33c122, 0x98e18fa3, 0x5ffbe8fc, 0xf7154b8b,
            0x28c1fcb3, 0xc4b38f9d, 0x83e2f5d7, 0x7d24b98b, 0x21078b22, 0xb193e7a3, 0xb2f49389, 0x6cde6026,
      Quad(0x8a07ff15, 0x913768fe, 0x0a39aedc, 0x2d4cfe3e), Quad(0x0cadc51c, 0x442a0c0c, 0xc1428029, 0xe5466d1b),
      Quad(0x017c8da9, 0x598fe3bb, 0x7b48135f, 0xe4ccdc13), Quad(0x4afbe5df, 0x47d18828, 0x5a5f1098, 0x8ac92a18));
    Diagonals(0x8a07ff15, 0x0cadc51c, 0x017c8da9, 0x4afbe5df, 0x913768fe, 0x442a0c0c, 0x598fe3bb, 0x47d18828,
              0x0a39aedc, 0xc1428029, 0x7b48135f, 0x5a5f1098, 0x2d4cfe3e, 0xe5466d1b, 0xe4ccdc13, 0x8ac92a18,
      Quad(0x837778ab, 0xfc62bb2f, 0xeabda8fc, 0x4e3c50a2), Quad(0xe238d763, 0x8fa018fc, 0x82e46ebd, 0xd19c12b4),
      Quad(0xa67ae21e, 0x3f5ec7b7, 0x335271c2, 0xb04e16de), Quad(0x5950bb2f, 0xc4f2d0c7, 0xf29489f3, 0x9e83d0cb));
  }

  // The key 00 01 .. 1f, the count 1 and the nonce 00 00 00 09 00 00 00 4a 00 00 00 00
  const START: State :=
    [0x61707865, 0x3320646e, 0x79622d32, 0x6b206574, 0x03020100, 0x07060504, 0x0b0a0908, 0x0f0e0d0c,
     0x13121110, 0x17161514, 0x1b1a1918, 0x1f1e1d1c, 0x00000001, 0x09000000, 0x4a000000, 0x00000000]

  lemma RoundsOfVector()
    ensures Core(START, 10) ==
            [0x837778ab, 0xe238d763, 0xa67ae21e, 0x5950bb2f, 0xc4f2d0c7, 0xfc62bb2f, 0x8fa018fc, 0x3f5ec7b7,
             0x335271c2, 0xf29489f3, 0xeabda8fc, 0x82e46ebd, 0xd19c12b4, 0xb04e16de, 0x9e83d0cb, 0x4e3c50a2]
  {
    hide DoubleRound;
    Double0();
    Double1();
    Double2();
    Double3();
    Double4();
    Double5();
    Double6();
    Double7();
    Double8();
    Double9();
    assert Core(START, 0) == START;
    assert Core(START, 1) == DoubleRound(Core(START, 0));
    assert Core(START, 2) == DoubleRound(Core(START, 1));
    assert Core(START, 3) == DoubleRound(Core(START, 2));
    assert Core(START, 4) == DoubleRound(Core(START, 3));
    assert Core(START, 5) == DoubleRound(Core(START, 4));
    assert Core(START, 6) == DoubleRound(Core(START, 5));
    assert Core(START, 7) == DoubleRound(Core(START, 6));
    assert Core(START, 8) == DoubleRound(Core(START, 7));
    assert Core(START, 9) == DoubleRound(Core(START, 8));
    assert Core(START, 10) == DoubleRound(Core(START, 9));
  }

  lemma Summed()
    ensures Sum([0x837778ab, 0xe238d763, 0xa67ae21e, 0x5950bb2f, 0xc4f2d0c7, 0xfc62bb2f, 0x8fa018fc, 0x3f5ec7b7,
                 0x335271c2, 0xf29489f3, 0xeabda8fc, 0x82e46ebd, 0xd19c12b4, 0xb04e16de, 0x9e83d0cb, 0x4e3c50a2],
                [0x61707865, 0x3320646e, 0x79622d32, 0x6b206574, 0x03020100, 0x07060504, 0x0b0a0908, 0x0f0e0d0c,
                 0x13121110, 0x17161514, 0x1b1a1918, 0x1f1e1d1c, 0x00000001, 0x09000000, 0x4a000000, 0x00000000]) ==
            [0xe4e7f110, 0x15593bd1, 0x1fdd0f50, 0xc47120a3, 0xc7f4d1c7, 0x0368c033, 0x9aaa2204, 0x4e6cd4c3,
             0x466482d2, 0x09aa9f07, 0x05d7c214, 0xa2028bd9, 0xd19c12b5, 0xb94e16de, 0xe883d0cb, 0x4e3c50a2]
  {
    hide Sum, Add;
    var s: State := [0x837778ab, 0xe238d763, 0xa67ae21e, 0x5950bb2f, 0xc4f2d0c7, 0xfc62bb2f, 0x8fa018fc, 0x3f5ec7b7,
                     0x335271c2, 0xf29489f3, 0xeabda8fc, 0x82e46ebd, 0xd19c12b4, 0xb04e16de, 0x9e83d0cb, 0x4e3c50a2];
    var t: State := [0x61707865, 0x3320646e, 0x79622d32, 0x6b206574, 0x03020100, 0x07060504, 0x0b0a0908, 0x0f0e0d0c,
                     0x13121110, 0x17161514, 0x1b1a1918, 0x1f1e1d1c, 0x00000001, 0x09000000, 0x4a000000, 0x00000000];
    var u: State := [0xe4e7f110, 0x15593bd1, 0x1fdd0f50, 0xc47120a3, 0xc7f4d1c7, 0x0368c033, 0x9aaa2204, 0x4e6cd4c3,
                     0x466482d2, 0x09aa9f07, 0x05d7c214, 0xa2028bd9, 0xd19c12b5, 0xb94e16de, 0xe883d0cb, 0x4e3c50a2];
    AddedWords();
    SumIs(s, t, u);
  }

  lemma SumIs(s: State, t: State, u: State)
    requires forall i :: 0 <= i < 16 ==> Add(s[i], t[i]) == u[i]
    ensures Sum(s, t) == u
  {
    hide Add;
  }

  lemma AddedWords()
    ensures && Add(0x837778ab, 0x61707865) == 0xe4e7f110
            && Add(0xe238d763, 0x3320646e) == 0x15593bd1
            && Add(0xa67ae21e, 0x79622d32) == 0x1fdd0f50
            && Add(0x5950bb2f, 0x6b206574) == 0xc47120a3
            && Add(0xc4f2d0c7, 0x03020100) == 0xc7f4d1c7
            && Add(0xfc62bb2f, 0x07060504) == 0x0368c033
            && Add(0x8fa018fc, 0x0b0a0908) == 0x9aaa2204
            && Add(0x3f5ec7b7, 0x0f0e0d0c) == 0x4e6cd4c3
            && Add(0x335271c2, 0x13121110) == 0x466482d2
            && Add(0xf29489f3, 0x17161514) == 0x09aa9f07
            && Add(0xeabda8fc, 0x1b1a1918) == 0x05d7c214
            && Add(0x82e46ebd, 0x1f1e1d1c) == 0xa2028bd9
            && Add(0xd19c12b4, 0x00000001) == 0xd19c12b5
            && Add(0xb04e16de, 0x09000000) == 0xb94e16de
            && Add(0x9e83d0cb, 0x4a000000) == 0xe883d0cb
            && Add(0x4e3c50a2, 0x00000000) == 0x4e3c50a2
  {
  }

  lemma BlockOfVector()
    ensures Block(START) ==
            [0xe4e7f110, 0x15593bd1, 0x1fdd0f50, 0xc47120a3, 0xc7f4d1c7, 0x0368c033, 0x9aaa2204, 0x4e6cd4c3,
             0x466482d2, 0x09aa9f07, 0x05d7c214, 0xa2028bd9, 0xd19c12b5, 0xb94e16de, 0xe883d0cb, 0x4e3c50a2]
  {
    hide Core, Sum;
    RoundsOfVector();
    Summed();
  }
}
