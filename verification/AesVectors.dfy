/** The examples of FIPS 197 in words of 32 bits, as the standard prints them: the key schedule of appendix A.1,
    and the schedule and the encryption of appendix C.1. */
module AesVectors {
  import opened AesTables
  import opened AesCipher
  import opened AesStandard

  // ---- words as numbers --------------------------------------------------------------------------------------

  function B0(x: bv32): Byte { ((x >> 24) & 0xFF) as Byte }
  function B1(x: bv32): Byte { ((x >> 16) & 0xFF) as Byte }
  function B2(x: bv32): Byte { ((x >> 8) & 0xFF) as Byte }
  function B3(x: bv32): Byte { (x & 0xFF) as Byte }

  function W(x: bv32): Word {
    [B0(x), B1(x), B2(x), B3(x)]
  }

  function Four(p: bv32, q: bv32, r: bv32, t: bv32): Block {
    W(p) + W(q) + W(r) + W(t)
  }

  lemma SumOf(x: bv32, k: bv32)
    ensures W(x ^ k) == Added(W(x), W(k))
  {}

  // c is t turned, substituted and added to a round constant.
  predicate Cored(t: bv32, rcon: Byte, c: bv32) {
    Xor(Sbox(B1(t)), rcon) == B0(c) && Sbox(B2(t)) == B1(c) && Sbox(B3(t)) == B2(c) && Sbox(B0(t)) == B3(c)
  }

  // s is the diagonal of four words, substituted.
  predicate Diagonally(p: bv32, q: bv32, r: bv32, t: bv32, s: bv32) {
    Sbox(B0(p)) == B0(s) && Sbox(B1(q)) == B1(s) && Sbox(B2(r)) == B2(s) && Sbox(B3(t)) == B3(s)
  }

  // m is the column s mixed.
  predicate Mixed(s: bv32, m: bv32) {
    && MixRow(B0(s), B1(s), B2(s), B3(s)) == B0(m) && MixRow(B1(s), B2(s), B3(s), B0(s)) == B1(m)
    && MixRow(B2(s), B3(s), B0(s), B1(s)) == B2(m) && MixRow(B3(s), B0(s), B1(s), B2(s)) == B3(m)
  }

  lemma ColumnIs(p: bv32, q: bv32, r: bv32, t: bv32, s: bv32, m: bv32, k: bv32)
    requires Diagonally(p, q, r, t, s)
    ensures Mixed(s, m) ==> RoundColumn(W(p), W(q), W(r), W(t), W(k)) == W(m ^ k)
    ensures LastColumn(W(p), W(q), W(r), W(t), W(k)) == W(s ^ k)
  {
    hide Sbox, MixRow, Xor, B0, B1, B2, B3;
    SumOf(m, k);
    SumOf(s, k);
  }

  // ---- schedules and rounds word by word ---------------------------------------------------------------------

  // Words i to i + 3 of a schedule.
  predicate Scheduled(key: Block, i: nat, p: bv32, q: bv32, r: bv32, t: bv32) {
    KeyWord(key, i) == W(p) && KeyWord(key, i + 1) == W(q) && KeyWord(key, i + 2) == W(r) && KeyWord(key, i + 3) == W(t)
  }

  lemma FirstFour(key: Block, p: bv32, q: bv32, r: bv32, t: bv32)
    requires key == Four(p, q, r, t)
    ensures Scheduled(key, 0, p, q, r, t)
  {
    hide Column, W;
    ColumnsJoin(key, W(p), W(q), W(r), W(t));
  }

  lemma KeyUnfolds(key: Block, i: nat)
    requires i >= 4
    ensures KeyWord(key, i) ==
      Added(KeyWord(key, i - 4),
            if i % 4 == 0 then ScheduleCore(KeyWord(key, i - 1), Rcon(i / 4 - 1)) else KeyWord(key, i - 1))
  {
    hide ScheduleCore, Rcon, Xor;
  }

  lemma CoreIs(t: bv32, rcon: Byte, c: bv32)
    requires Cored(t, rcon, c)
    ensures ScheduleCore(W(t), rcon) == W(c)
  {
    hide Sbox, Xor, B0, B1, B2, B3;
  }

  // Four more words: c is what is added to the first.
  lemma NextFour(key: Block, n: nat, p: bv32, q: bv32, r: bv32, t: bv32, c: bv32, p': bv32, q': bv32, r': bv32, t': bv32)
    requires Scheduled(key, 4 * n, p, q, r, t) && Cored(t, Rcon(n), c)
    requires p' == p ^ c && q' == q ^ p' && r' == r ^ q' && t' == t ^ r'
    ensures Scheduled(key, 4 * n + 4, p', q', r', t')
  {
    hide Rcon, KeyWord, W, Added, Cored, ScheduleCore;
    var i := 4 * n + 4;
    KeyUnfolds(key, i);
    KeyUnfolds(key, i + 1);
    KeyUnfolds(key, i + 2);
    KeyUnfolds(key, i + 3);
    CoreIs(t, Rcon(n), c);
    SumOf(p, c);
    SumOf(q, p');
    SumOf(r, q');
    SumOf(t, r');
  }

  // What four words of a schedule are to a round.
  lemma RoundKeyIs(key: Block, round: nat, p: bv32, q: bv32, r: bv32, t: bv32)
    requires round <= 10 && Scheduled(key, 4 * round, p, q, r, t)
    ensures RoundKey(ExpandedKey(key), round) == Four(p, q, r, t)
  {
    hide RoundKey, ExpandedKey, KeyWord, W;
    WordOf(key, round, 0);
    WordOf(key, round, 1);
    WordOf(key, round, 2);
    WordOf(key, round, 3);
    FourWords(RoundKey(ExpandedKey(key), round));
  }

  lemma WordOf(key: Block, round: nat, j: nat)
    requires round <= 10 && j < 4
    ensures RoundKey(ExpandedKey(key), round)[4 * j..4 * j + 4] == KeyWord(key, 4 * round + j)
  {
    hide KeyWord;
    var k, w := RoundKey(ExpandedKey(key), round)[4 * j..4 * j + 4], KeyWord(key, 4 * round + j);
    forall m: nat | m < 4
      ensures k[m] == w[m]
    {
      var at := 4 * (4 * round + j) + m;
      assert at / 4 == 4 * round + j && at % 4 == m;
      assert RoundKey(ExpandedKey(key), round)[4 * j + m] == ExpandedKey(key)[at];
    }
  }

  // The state at the start of a round, given as four words.
  predicate Starts(key: Block, plain: Block, round: nat, p: bv32, q: bv32, r: bv32, t: bv32)
    requires round <= 9
  {
    EncState(ExpandedKey(key), plain, round) == Four(p, q, r, t)
  }

  lemma FirstRound(key: Block, plain: Block, p: bv32, q: bv32, r: bv32, t: bv32, k0: bv32, k1: bv32, k2: bv32, k3: bv32)
    requires plain == Four(p, q, r, t) && Scheduled(key, 0, k0, k1, k2, k3)
    ensures Starts(key, plain, 0, p ^ k0, q ^ k1, r ^ k2, t ^ k3)
  {
    hide AddRoundKey, Added, KeyWord, ExpandedKey, RoundKey, W, Scheduled;
    RoundKeyIs(key, 0, k0, k1, k2, k3);
    AddedByColumns(W(p), W(q), W(r), W(t), W(k0), W(k1), W(k2), W(k3));
    SumOf(p, k0);
    SumOf(q, k1);
    SumOf(r, k2);
    SumOf(t, k3);
  }

  // One round: the state after ShiftRows (s), after MixColumns (m) and after the key (k) is added.
  lemma NextRound(key: Block, plain: Block, round: nat, p: bv32, q: bv32, r: bv32, t: bv32,
                  s0: bv32, s1: bv32, s2: bv32, s3: bv32, m0: bv32, m1: bv32, m2: bv32, m3: bv32,
                  k0: bv32, k1: bv32, k2: bv32, k3: bv32)
    requires 0 < round <= 9 && Starts(key, plain, round - 1, p, q, r, t) && Scheduled(key, 4 * round, k0, k1, k2, k3)
    requires Diagonally(p, q, r, t, s0) && Diagonally(q, r, t, p, s1) && Diagonally(r, t, p, q, s2) && Diagonally(t, p, q, r, s3)
    requires Mixed(s0, m0) && Mixed(s1, m1) && Mixed(s2, m2) && Mixed(s3, m3)
    ensures Starts(key, plain, round, m0 ^ k0, m1 ^ k1, m2 ^ k2, m3 ^ k3)
  {
    hide AddRoundKey, RoundColumn, KeyWord, ExpandedKey, RoundKey, MixColumns, ShiftRows, SubBytes, W, Scheduled,
      Diagonally, Mixed, LastColumn;
    RoundKeyIs(key, round, k0, k1, k2, k3);
    RoundByColumns(W(p), W(q), W(r), W(t), W(k0), W(k1), W(k2), W(k3));
    ColumnIs(p, q, r, t, s0, m0, k0);
    ColumnIs(q, r, t, p, s1, m1, k1);
    ColumnIs(r, t, p, q, s2, m2, k2);
    ColumnIs(t, p, q, r, s3, m3, k3);
  }

  lemma LastRound(key: Block, plain: Block, p: bv32, q: bv32, r: bv32, t: bv32,
                  s0: bv32, s1: bv32, s2: bv32, s3: bv32, k0: bv32, k1: bv32, k2: bv32, k3: bv32)
    requires Starts(key, plain, 9, p, q, r, t) && Scheduled(key, 40, k0, k1, k2, k3)
    requires Diagonally(p, q, r, t, s0) && Diagonally(q, r, t, p, s1) && Diagonally(r, t, p, q, s2) && Diagonally(t, p, q, r, s3)
    ensures Cipher(ExpandedKey(key), plain) == Four(s0 ^ k0, s1 ^ k1, s2 ^ k2, s3 ^ k3)
  {
    hide AddRoundKey, RoundColumn, KeyWord, ExpandedKey, RoundKey, MixColumns, ShiftRows, SubBytes, W, Scheduled,
      Diagonally, Mixed, LastColumn, EncState;
    RoundKeyIs(key, 10, k0, k1, k2, k3);
    RoundByColumns(W(p), W(q), W(r), W(t), W(k0), W(k1), W(k2), W(k3));
    ColumnIs(p, q, r, t, s0, s0, k0);
    ColumnIs(q, r, t, p, s1, s1, k1);
    ColumnIs(r, t, p, q, s2, s2, k2);
    ColumnIs(t, p, q, r, s3, s3, k3);
  }

  // ---- the examples -----------------------------------------------------------------------------------------

  const KEY_A1: Block := Four(0x2b7e1516, 0x28aed2a6, 0xabf71588, 0x09cf4f3c)
  const KEY_C1: Block := Four(0x00010203, 0x04050607, 0x08090a0b, 0x0c0d0e0f)
  const PLAIN_C1: Block := Four(0x00112233, 0x44556677, 0x8899aabb, 0xccddeeff)
  const CODED_C1: Block := Four(0x69c4e0d8, 0x6a7b0430, 0xd8cdb780, 0x70b4c55a)

  lemma Constants()
    ensures Rcon(0) == 0x01
    ensures Rcon(1) == 0x02
    ensures Rcon(2) == 0x04
    ensures Rcon(3) == 0x08
    ensures Rcon(4) == 0x10
    ensures Rcon(5) == 0x20
    ensures Rcon(6) == 0x40
    ensures Rcon(7) == 0x80
    ensures Rcon(8) == 0x1b
    ensures Rcon(9) == 0x36
  {}

  lemma CoresA1()
    ensures Cored(0x09cf4f3c, 0x01, 0x8b84eb01)
    ensures Cored(0x2a6c7605, 0x02, 0x52386be5)
    ensures Cored(0x7359f67f, 0x04, 0xcf42d28f)
    ensures Cored(0x6d7a883b, 0x08, 0xd2c4e23c)
    ensures Cored(0xdb0bad00, 0x10, 0x3b9563b9)
  {}

  lemma CoresA1'()
    ensures Cored(0x11f915bc, 0x20, 0xb9596582)
    ensures Cored(0xca0093fd, 0x40, 0x23dc5474)
    ensures Cored(0x4ea6dc4f, 0x80, 0xa486842f)
    ensures Cored(0x7f8d292f, 0x1b, 0x46a515d2)
    ensures Cored(0x575c006e, 0x36, 0x7c639f5b)
  {}

  /** Appendix A.1. */
  lemma ScheduleA1()
    ensures Scheduled(KEY_A1, 0, 0x2b7e1516, 0x28aed2a6, 0xabf71588, 0x09cf4f3c)
    ensures Scheduled(KEY_A1, 4, 0xa0fafe17, 0x88542cb1, 0x23a33939, 0x2a6c7605)
    ensures Scheduled(KEY_A1, 8, 0xf2c295f2, 0x7a96b943, 0x5935807a, 0x7359f67f)
    ensures Scheduled(KEY_A1, 12, 0x3d80477d, 0x4716fe3e, 0x1e237e44, 0x6d7a883b)
    ensures Scheduled(KEY_A1, 16, 0xef44a541, 0xa8525b7f, 0xb671253b, 0xdb0bad00)
    ensures Scheduled(KEY_A1, 20, 0xd4d1c6f8, 0x7c839d87, 0xcaf2b8bc, 0x11f915bc)
    ensures Scheduled(KEY_A1, 24, 0x6d88a37a, 0x110b3efd, 0xdbf98641, 0xca0093fd)
    ensures Scheduled(KEY_A1, 28, 0x4e54f70e, 0x5f5fc9f3, 0x84a64fb2, 0x4ea6dc4f)
    ensures Scheduled(KEY_A1, 32, 0xead27321, 0xb58dbad2, 0x312bf560, 0x7f8d292f)
    ensures Scheduled(KEY_A1, 36, 0xac7766f3, 0x19fadc21, 0x28d12941, 0x575c006e)
    ensures Scheduled(KEY_A1, 40, 0xd014f9a8, 0xc9ee2589, 0xe13f0cc8, 0xb6630ca6)
  {
    hide Scheduled, Rcon, Cored;
    Constants();
    CoresA1();
    CoresA1'();
    FirstFour(KEY_A1, 0x2b7e1516, 0x28aed2a6, 0xabf71588, 0x09cf4f3c);
    NextFour(KEY_A1, 0, 0x2b7e1516, 0x28aed2a6, 0xabf71588, 0x09cf4f3c, 0x8b84eb01,
             0xa0fafe17, 0x88542cb1, 0x23a33939, 0x2a6c7605);
    NextFour(KEY_A1, 1, 0xa0fafe17, 0x88542cb1, 0x23a33939, 0x2a6c7605, 0x52386be5,
             0xf2c295f2, 0x7a96b943, 0x5935807a, 0x7359f67f);
    NextFour(KEY_A1, 2, 0xf2c295f2, 0x7a96b943, 0x5935807a, 0x7359f67f, 0xcf42d28f,
             0x3d80477d, 0x4716fe3e, 0x1e237e44, 0x6d7a883b);
    NextFour(KEY_A1, 3, 0x3d80477d, 0x4716fe3e, 0x1e237e44, 0x6d7a883b, 0xd2c4e23c,
             0xef44a541, 0xa8525b7f, 0xb671253b, 0xdb0bad00);
    NextFour(KEY_A1, 4, 0xef44a541, 0xa8525b7f, 0xb671253b, 0xdb0bad00, 0x3b9563b9,
             0xd4d1c6f8, 0x7c839d87, 0xcaf2b8bc, 0x11f915bc);
    NextFour(KEY_A1, 5, 0xd4d1c6f8, 0x7c839d87, 0xcaf2b8bc, 0x11f915bc, 0xb9596582,
             0x6d88a37a, 0x110b3efd, 0xdbf98641, 0xca0093fd);
    NextFour(KEY_A1, 6, 0x6d88a37a, 0x110b3efd, 0xdbf98641, 0xca0093fd, 0x23dc5474,
             0x4e54f70e, 0x5f5fc9f3, 0x84a64fb2, 0x4ea6dc4f);
    NextFour(KEY_A1, 7, 0x4e54f70e, 0x5f5fc9f3, 0x84a64fb2, 0x4ea6dc4f, 0xa486842f,
             0xead27321, 0xb58dbad2, 0x312bf560, 0x7f8d292f);
    NextFour(KEY_A1, 8, 0xead27321, 0xb58dbad2, 0x312bf560, 0x7f8d292f, 0x46a515d2,
             0xac7766f3, 0x19fadc21, 0x28d12941, 0x575c006e);
    NextFour(KEY_A1, 9, 0xac7766f3, 0x19fadc21, 0x28d12941, 0x575c006e, 0x7c639f5b,
             0xd014f9a8, 0xc9ee2589, 0xe13f0cc8, 0xb6630ca6);
  }

  lemma CoresC1()
    ensures Cored(0x0c0d0e0f, 0x01, 0xd6ab76fe)
    ensures Cored(0xd6ab76fe, 0x02, 0x6038bbf6)
    ensures Cored(0x6830b3fe, 0x04, 0x006dbb45)
  {}

  lemma CoresC1'()
    ensures Cored(0x0469bf41, 0x08, 0xf10883f2)
    ensures Cored(0xfd058dfd, 0x10, 0x7b5d5454)
    ensures Cored(0xadf622aa, 0x20, 0x6293ac95)
    ensures Cored(0x0aa31f6b, 0x40, 0x4ac07f67)
  {}

  lemma CoresC1''()
    ensures Cored(0x4ea9c026, 0x80, 0x53baf72f)
    ensures Cored(0xaebf7ad2, 0x1b, 0x13dab5e4)
    ensures Cored(0xbe2c974e, 0x36, 0x47882fae)
  {}

  /** Appendix C.1: the schedule. */
  lemma ScheduleC1()
    ensures Scheduled(KEY_C1, 0, 0x00010203, 0x04050607, 0x08090a0b, 0x0c0d0e0f)
    ensures Scheduled(KEY_C1, 4, 0xd6aa74fd, 0xd2af72fa, 0xdaa678f1, 0xd6ab76fe)
    ensures Scheduled(KEY_C1, 8, 0xb692cf0b, 0x643dbdf1, 0xbe9bc500, 0x6830b3fe)
    ensures Scheduled(KEY_C1, 12, 0xb6ff744e, 0xd2c2c9bf, 0x6c590cbf, 0x0469bf41)
    ensures Scheduled(KEY_C1, 16, 0x47f7f7bc, 0x95353e03, 0xf96c32bc, 0xfd058dfd)
    ensures Scheduled(KEY_C1, 20, 0x3caaa3e8, 0xa99f9deb, 0x50f3af57, 0xadf622aa)
    ensures Scheduled(KEY_C1, 24, 0x5e390f7d, 0xf7a69296, 0xa7553dc1, 0x0aa31f6b)
    ensures Scheduled(KEY_C1, 28, 0x14f9701a, 0xe35fe28c, 0x440adf4d, 0x4ea9c026)
    ensures Scheduled(KEY_C1, 32, 0x47438735, 0xa41c65b9, 0xe016baf4, 0xaebf7ad2)
    ensures Scheduled(KEY_C1, 36, 0x549932d1, 0xf0855768, 0x1093ed9c, 0xbe2c974e)
    ensures Scheduled(KEY_C1, 40, 0x13111d7f, 0xe3944a17, 0xf307a78b, 0x4d2b30c5)
  {
    hide Scheduled, Rcon, Cored;
    Constants();
    CoresC1();
    CoresC1'();
    CoresC1''();
    FirstFour(KEY_C1, 0x00010203, 0x04050607, 0x08090a0b, 0x0c0d0e0f);
    NextFour(KEY_C1, 0, 0x00010203, 0x04050607, 0x08090a0b, 0x0c0d0e0f, 0xd6ab76fe,
             0xd6aa74fd, 0xd2af72fa, 0xdaa678f1, 0xd6ab76fe);
    NextFour(KEY_C1, 1, 0xd6aa74fd, 0xd2af72fa, 0xdaa678f1, 0xd6ab76fe, 0x6038bbf6,
             0xb692cf0b, 0x643dbdf1, 0xbe9bc500, 0x6830b3fe);
    NextFour(KEY_C1, 2, 0xb692cf0b, 0x643dbdf1, 0xbe9bc500, 0x6830b3fe, 0x006dbb45,
             0xb6ff744e, 0xd2c2c9bf, 0x6c590cbf, 0x0469bf41);
    NextFour(KEY_C1, 3, 0xb6ff744e, 0xd2c2c9bf, 0x6c590cbf, 0x0469bf41, 0xf10883f2,
             0x47f7f7bc, 0x95353e03, 0xf96c32bc, 0xfd058dfd);
    NextFour(KEY_C1, 4, 0x47f7f7bc, 0x95353e03, 0xf96c32bc, 0xfd058dfd, 0x7b5d5454,
             0x3caaa3e8, 0xa99f9deb, 0x50f3af57, 0xadf622aa);
    NextFour(KEY_C1, 5, 0x3caaa3e8, 0xa99f9deb, 0x50f3af57, 0xadf622aa, 0x6293ac95,
             0x5e390f7d, 0xf7a69296, 0xa7553dc1, 0x0aa31f6b);
    NextFour(KEY_C1, 6, 0x5e390f7d, 0xf7a69296, 0xa7553dc1, 0x0aa31f6b, 0x4ac07f67,
             0x14f9701a, 0xe35fe28c, 0x440adf4d, 0x4ea9c026);
    NextFour(KEY_C1, 7, 0x14f9701a, 0xe35fe28c, 0x440adf4d, 0x4ea9c026, 0x53baf72f,
             0x47438735, 0xa41c65b9, 0xe016baf4, 0xaebf7ad2);
    NextFour(KEY_C1, 8, 0x47438735, 0xa41c65b9, 0xe016baf4, 0xaebf7ad2, 0x13dab5e4,
             0x549932d1, 0xf0855768, 0x1093ed9c, 0xbe2c974e);
    NextFour(KEY_C1, 9, 0x549932d1, 0xf0855768, 0x1093ed9c, 0xbe2c974e, 0x47882fae,
             0x13111d7f, 0xe3944a17, 0xf307a78b, 0x4d2b30c5);
  }

  lemma Shifted1()
    ensures Diagonally(0x00102030, 0x40506070, 0x8090a0b0, 0xc0d0e0f0, 0x6353e08c)
    ensures Diagonally(0x40506070, 0x8090a0b0, 0xc0d0e0f0, 0x00102030, 0x0960e104)
    ensures Diagonally(0x8090a0b0, 0xc0d0e0f0, 0x00102030, 0x40506070, 0xcd70b751)
    ensures Diagonally(0xc0d0e0f0, 0x00102030, 0x40506070, 0x8090a0b0, 0xbacad0e7)
  {}

  lemma Round1()
    ensures Starts(KEY_C1, PLAIN_C1, 1, 0x89d810e8, 0x855ace68, 0x2d1843d8, 0xcb128fe4)
  {
    hide Starts, Scheduled, Diagonally;
    ScheduleC1();
    Shifted1();
    FirstRound(KEY_C1, PLAIN_C1, 0x00112233, 0x44556677, 0x8899aabb, 0xccddeeff,
               0x00010203, 0x04050607, 0x08090a0b, 0x0c0d0e0f);
    NextRound(KEY_C1, PLAIN_C1, 1, 0x00102030, 0x40506070, 0x8090a0b0, 0xc0d0e0f0,
              0x6353e08c, 0x0960e104, 0xcd70b751, 0xbacad0e7,
              0x5f726415, 0x57f5bc92, 0xf7be3b29, 0x1db9f91a,
              0xd6aa74fd, 0xd2af72fa, 0xdaa678f1, 0xd6ab76fe);
  }

  lemma Shifted2()
    ensures Diagonally(0x89d810e8, 0x855ace68, 0x2d1843d8, 0xcb128fe4, 0xa7be1a69)
    ensures Diagonally(0x855ace68, 0x2d1843d8, 0xcb128fe4, 0x89d810e8, 0x97ad739b)
    ensures Diagonally(0x2d1843d8, 0xcb128fe4, 0x89d810e8, 0x855ace68, 0xd8c9ca45)
    ensures Diagonally(0xcb128fe4, 0x89d810e8, 0x855ace68, 0x2d1843d8, 0x1f618b61)
  {}

  lemma Round2()
    ensures Starts(KEY_C1, PLAIN_C1, 2, 0x4915598f, 0x55e5d7a0, 0xdaca94fa, 0x1f0a63f7)
  {
    hide Starts, Scheduled, Diagonally;
    ScheduleC1();
    Shifted2();
    Round1();
    NextRound(KEY_C1, PLAIN_C1, 2, 0x89d810e8, 0x855ace68, 0x2d1843d8, 0xcb128fe4,
              0xa7be1a69, 0x97ad739b, 0xd8c9ca45, 0x1f618b61,
              0xff879684, 0x31d86a51, 0x645151fa, 0x773ad009,
              0xb692cf0b, 0x643dbdf1, 0xbe9bc500, 0x6830b3fe);
  }

  lemma Shifted3()
    ensures Diagonally(0x4915598f, 0x55e5d7a0, 0xdaca94fa, 0x1f0a63f7, 0x3bd92268)
    ensures Diagonally(0x55e5d7a0, 0xdaca94fa, 0x1f0a63f7, 0x4915598f, 0xfc74fb73)
    ensures Diagonally(0xdaca94fa, 0x1f0a63f7, 0x4915598f, 0x55e5d7a0, 0x5767cbe0)
    ensures Diagonally(0x1f0a63f7, 0x4915598f, 0x55e5d7a0, 0xdaca94fa, 0xc0590e2d)
  {}

  lemma Round3()
    ensures Starts(KEY_C1, PLAIN_C1, 3, 0xfa636a28, 0x25b339c9, 0x40668a31, 0x57244d17)
  {
    hide Starts, Scheduled, Diagonally;
    ScheduleC1();
    Shifted3();
    Round2();
    NextRound(KEY_C1, PLAIN_C1, 3, 0x4915598f, 0x55e5d7a0, 0xdaca94fa, 0x1f0a63f7,
              0x3bd92268, 0xfc74fb73, 0x5767cbe0, 0xc0590e2d,
              0x4c9c1e66, 0xf771f076, 0x2c3f868e, 0x534df256,
              0xb6ff744e, 0xd2c2c9bf, 0x6c590cbf, 0x0469bf41);
  }

  lemma Shifted4()
    ensures Diagonally(0xfa636a28, 0x25b339c9, 0x40668a31, 0x57244d17, 0x2d6d7ef0)
    ensures Diagonally(0x25b339c9, 0x40668a31, 0x57244d17, 0xfa636a28, 0x3f33e334)
    ensures Diagonally(0x40668a31, 0x57244d17, 0xfa636a28, 0x25b339c9, 0x093602dd)
    ensures Diagonally(0x57244d17, 0xfa636a28, 0x25b339c9, 0x40668a31, 0x5bfb12c7)
  {}

  lemma Round4()
    ensures Starts(KEY_C1, PLAIN_C1, 4, 0x24724023, 0x6966b3fa, 0x6ed27532, 0x88425b6c)
  {
    hide Starts, Scheduled, Diagonally;
    ScheduleC1();
    Shifted4();
    Round3();
    NextRound(KEY_C1, PLAIN_C1, 4, 0xfa636a28, 0x25b339c9, 0x40668a31, 0x57244d17,
              0x2d6d7ef0, 0x3f33e334, 0x093602dd, 0x5bfb12c7,
              0x6385b79f, 0xfc538df9, 0x97be478e, 0x7547d691,
              0x47f7f7bc, 0x95353e03, 0xf96c32bc, 0xfd058dfd);
  }

  lemma Shifted5()
    ensures Diagonally(0x24724023, 0x6966b3fa, 0x6ed27532, 0x88425b6c, 0x36339d50)
    ensures Diagonally(0x6966b3fa, 0x6ed27532, 0x88425b6c, 0x24724023, 0xf9b53926)
    ensures Diagonally(0x6ed27532, 0x88425b6c, 0x24724023, 0x6966b3fa, 0x9f2c092d)
    ensures Diagonally(0x88425b6c, 0x24724023, 0x6966b3fa, 0x6ed27532, 0xc4406d23)
  {}

  lemma Round5()
    ensures Starts(KEY_C1, PLAIN_C1, 5, 0xc81677bc, 0x9b7ac93b, 0x25027992, 0xb0261996)
  {
    hide Starts, Scheduled, Diagonally;
    ScheduleC1();
    Shifted5();
    Round4();
    NextRound(KEY_C1, PLAIN_C1, 5, 0x24724023, 0x6966b3fa, 0x6ed27532, 0x88425b6c,
              0x36339d50, 0xf9b53926, 0x9f2c092d, 0xc4406d23,
              0xf4bcd454, 0x32e554d0, 0x75f1d6c5, 0x1dd03b3c,
              0x3caaa3e8, 0xa99f9deb, 0x50f3af57, 0xadf622aa);
  }

  lemma Shifted6()
    ensures Diagonally(0xc81677bc, 0x9b7ac93b, 0x25027992, 0xb0261996, 0xe8dab690)
    ensures Diagonally(0x9b7ac93b, 0x25027992, 0xb0261996, 0xc81677bc, 0x1477d465)
    ensures Diagonally(0x25027992, 0xb0261996, 0xc81677bc, 0x9b7ac93b, 0x3ff7f5e2)
    ensures Diagonally(0xb0261996, 0xc81677bc, 0x9b7ac93b, 0x25027992, 0xe747dd4f)
  {}

  lemma Round6()
    ensures Starts(KEY_C1, PLAIN_C1, 6, 0xc62fe109, 0xf75eedc3, 0xcc79395d, 0x84f9cf5d)
  {
    hide Starts, Scheduled, Diagonally;
    ScheduleC1();
    Shifted6();
    Round5();
    NextRound(KEY_C1, PLAIN_C1, 6, 0xc81677bc, 0x9b7ac93b, 0x25027992, 0xb0261996,
              0xe8dab690, 0x1477d465, 0x3ff7f5e2, 0xe747dd4f,
              0x9816ee74, 0x00f87f55, 0x6b2c049c, 0x8e5ad036,
              0x5e390f7d, 0xf7a69296, 0xa7553dc1, 0x0aa31f6b);
  }

  lemma Shifted7()
    ensures Diagonally(0xc62fe109, 0xf75eedc3, 0xcc79395d, 0x84f9cf5d, 0xb458124c)
    ensures Diagonally(0xf75eedc3, 0xcc79395d, 0x84f9cf5d, 0xc62fe109, 0x68b68a01)
    ensures Diagonally(0xcc79395d, 0x84f9cf5d, 0xc62fe109, 0xf75eedc3, 0x4b99f82e)
    ensures Diagonally(0x84f9cf5d, 0xc62fe109, 0xf75eedc3, 0xcc79395d, 0x5f15554c)
  {}

  lemma Round7()
    ensures Starts(KEY_C1, PLAIN_C1, 7, 0xd1876c0f, 0x79c4300a, 0xb45594ad, 0xd66ff41f)
  {
    hide Starts, Scheduled, Diagonally;
    ScheduleC1();
    Shifted7();
    Round6();
    NextRound(KEY_C1, PLAIN_C1, 7, 0xc62fe109, 0xf75eedc3, 0xcc79395d, 0x84f9cf5d,
              0xb458124c, 0x68b68a01, 0x4b99f82e, 0x5f15554c,
              0xc57e1c15, 0x9a9bd286, 0xf05f4be0, 0x98c63439,
              0x14f9701a, 0xe35fe28c, 0x440adf4d, 0x4ea9c026);
  }

  lemma Shifted8()
    ensures Diagonally(0xd1876c0f, 0x79c4300a, 0xb45594ad, 0xd66ff41f, 0x3e1c22c0)
    ensures Diagonally(0x79c4300a, 0xb45594ad, 0xd66ff41f, 0xd1876c0f, 0xb6fcbf76)
    ensures Diagonally(0xb45594ad, 0xd66ff41f, 0xd1876c0f, 0x79c4300a, 0x8da85067)
    ensures Diagonally(0xd66ff41f, 0xd1876c0f, 0x79c4300a, 0xb45594ad, 0xf6170495)
  {}

  lemma Round8()
    ensures Starts(KEY_C1, PLAIN_C1, 8, 0xfde3bad2, 0x05e5d0d7, 0x3547964e, 0xf1fe37f1)
  {
    hide Starts, Scheduled, Diagonally;
    ScheduleC1();
    Shifted8();
    Round7();
    NextRound(KEY_C1, PLAIN_C1, 8, 0xd1876c0f, 0x79c4300a, 0xb45594ad, 0xd66ff41f,
              0x3e1c22c0, 0xb6fcbf76, 0x8da85067, 0xf6170495,
              0xbaa03de7, 0xa1f9b56e, 0xd5512cba, 0x5f414d23,
              0x47438735, 0xa41c65b9, 0xe016baf4, 0xaebf7ad2);
  }

  lemma Shifted9()
    ensures Diagonally(0xfde3bad2, 0x05e5d0d7, 0x3547964e, 0xf1fe37f1, 0x54d990a1)
    ensures Diagonally(0x05e5d0d7, 0x3547964e, 0xf1fe37f1, 0xfde3bad2, 0x6ba09ab5)
    ensures Diagonally(0x3547964e, 0xf1fe37f1, 0xfde3bad2, 0x05e5d0d7, 0x96bbf40e)
    ensures Diagonally(0xf1fe37f1, 0xfde3bad2, 0x05e5d0d7, 0x3547964e, 0xa111702f)
  {}

  lemma Round9()
    ensures Starts(KEY_C1, PLAIN_C1, 9, 0xbd6e7c3d, 0xf2b5779e, 0x0b61216e, 0x8b10b689)
  {
    hide Starts, Scheduled, Diagonally;
    ScheduleC1();
    Shifted9();
    Round8();
    NextRound(KEY_C1, PLAIN_C1, 9, 0xfde3bad2, 0x05e5d0d7, 0x3547964e, 0xf1fe37f1,
              0x54d990a1, 0x6ba09ab5, 0x96bbf40e, 0xa111702f,
              0xe9f74eec, 0x023020f6, 0x1bf2ccf2, 0x353c21c7,
              0x549932d1, 0xf0855768, 0x1093ed9c, 0xbe2c974e);
  }

  /** Appendix C.1: the cipher gives the ciphertext, and the decryptor the plaintext again. */
  lemma ExampleC1()
    ensures Cipher(ExpandedKey(KEY_C1), PLAIN_C1) == CODED_C1
    ensures InvCipher(ExpandedKey(KEY_C1), CODED_C1) == PLAIN_C1
  {
    hide Starts, Scheduled, Cipher, InvCipher, ExpandedKey;
    ScheduleC1();
    Round9();
    LastRound(KEY_C1, PLAIN_C1, 0xbd6e7c3d, 0xf2b5779e, 0x0b61216e, 0x8b10b689,
              0x7ad5fda7, 0x89ef4e27, 0x2bca100b, 0x3d9ff59f,
              0x13111d7f, 0xe3944a17, 0xf307a78b, 0x4d2b30c5);
    InvCipherUndoesCipher(ExpandedKey(KEY_C1), PLAIN_C1);
  }
}
