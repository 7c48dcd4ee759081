/** AES-128 against the standard it implements: the substitution table and the round constants by what they
    mean (FIPS 197, sections 5.1.1 and 5.2), a round column by column, and the standard's own examples of a
    key schedule and an encryption (appendices A.1 and C.1). */
module AesStandard {
  import opened AesTables
  import opened AesCipher

  // ---- the substitution table and the round constants --------------------------------------------------

  // Multiplication with all eight bits of the multiplier written out.
  function Product(a: Byte, b: Byte): Byte {
    var a1 := Xtime(a);
    var a2 := Xtime(a1);
    var a3 := Xtime(a2);
    var a4 := Xtime(a3);
    var a5 := Xtime(a4);
    var a6 := Xtime(a5);
    var a7 := Xtime(a6);
    Xor(if b & 1 != 0 then a else 0, Xor(if b & 2 != 0 then a1 else 0,
    Xor(if b & 4 != 0 then a2 else 0, Xor(if b & 8 != 0 then a3 else 0,
    Xor(if b & 16 != 0 then a4 else 0, Xor(if b & 32 != 0 then a5 else 0,
    Xor(if b & 64 != 0 then a6 else 0, if b & 128 != 0 then a7 else 0)))))))
  }

  lemma EightBits(a: Byte, b: Byte)
    ensures var a1 := Xtime(a); var a2 := Xtime(a1); var a3 := Xtime(a2); var a4 := Xtime(a3);
      var a5 := Xtime(a4); var a6 := Xtime(a5); var a7 := Xtime(a6);
      GfMul(a, b) ==
        Xor(if b & 1 != 0 then a else 0, Xor(if b & 2 != 0 then a1 else 0,
        Xor(if b & 4 != 0 then a2 else 0, Xor(if b & 8 != 0 then a3 else 0,
        Xor(if b & 16 != 0 then a4 else 0, Xor(if b & 32 != 0 then a5 else 0,
        Xor(if b & 64 != 0 then a6 else 0, if b & 128 != 0 then a7 else 0)))))))
  {
    hide GfMulBits, Xtime, Xor;
    var a1 := Xtime(a);
    var a2 := Xtime(a1);
    var a3 := Xtime(a2);
    var a4 := Xtime(a3);
    var a5 := Xtime(a4);
    var a6 := Xtime(a5);
    var a7 := Xtime(a6);
    AllShifts(b);
    BitStep(a, b, 7);
    BitStep(a1, b >> 1, 6);
    BitStep(a2, b >> 1 >> 1, 5);
    BitStep(a3, b >> 1 >> 1 >> 1, 4);
    BitStep(a4, b >> 1 >> 1 >> 1 >> 1, 3);
    BitStep(a5, b >> 1 >> 1 >> 1 >> 1 >> 1, 2);
    BitStep(a6, b >> 1 >> 1 >> 1 >> 1 >> 1 >> 1, 1);
    BitStep(a7, b >> 1 >> 1 >> 1 >> 1 >> 1 >> 1 >> 1, 0);
    NoBits(Xtime(a7), 0);
    XorZero(if b & 128 != 0 then a7 else 0);
  }

  lemma IsProduct(a: Byte, b: Byte)
    ensures GfMul(a, b) == Product(a, b)
  {
    hide GfMul, Xtime, Xor;
    EightBits(a, b);
  }

  lemma AllShifts(b: Byte)
    ensures (b >> 1) & 1 != 0 <==> b & 2 != 0
    ensures (b >> 1 >> 1) & 1 != 0 <==> b & 4 != 0
    ensures (b >> 1 >> 1 >> 1) & 1 != 0 <==> b & 8 != 0
    ensures (b >> 1 >> 1 >> 1 >> 1) & 1 != 0 <==> b & 16 != 0
    ensures (b >> 1 >> 1 >> 1 >> 1 >> 1) & 1 != 0 <==> b & 32 != 0
    ensures (b >> 1 >> 1 >> 1 >> 1 >> 1 >> 1) & 1 != 0 <==> b & 64 != 0
    ensures (b >> 1 >> 1 >> 1 >> 1 >> 1 >> 1 >> 1) & 1 != 0 <==> b & 128 != 0
    ensures b >> 1 >> 1 >> 1 >> 1 >> 1 >> 1 >> 1 >> 1 == 0
  {}

  // A byte with its bits turned k places up.
  function Turned(b: Byte, k: nat): Byte
    requires k <= 8
  {
    (b << k) | (b >> (8 - k))
  }

  /** The affine map of section 5.1.1: bit i is the sum of bits i, i + 4, i + 5, i + 6 and i + 7, modulo 8,
      and of bit i of 0x63. */
  function Affine(b: Byte): Byte {
    b ^ Turned(b, 1) ^ Turned(b, 2) ^ Turned(b, 3) ^ Turned(b, 4) ^ 0x63
  }

  // The affine map undone.
  function Unaffine(b: Byte): Byte {
    Turned(b, 1) ^ Turned(b, 3) ^ Turned(b, 6) ^ 0x05
  }

  lemma AffineUndone(b: Byte)
    ensures Affine(Unaffine(b)) == b
  {}

  // The table row by row, a quarter at a time, to keep each query small.
  lemma FirstRows(b: Byte)
    requires 0 < b < 0x40
    ensures Product(b, Unaffine(Sbox(b))) == 1
  {
    match b >> 4
    case 0x0 => assert Product(b, Unaffine(Sbox(b))) == 1;
    case 0x1 => assert Product(b, Unaffine(Sbox(b))) == 1;
    case 0x2 => assert Product(b, Unaffine(Sbox(b))) == 1;
    case _ =>
  }

  lemma SecondRows(b: Byte)
    requires 0x40 <= b < 0x80
    ensures Product(b, Unaffine(Sbox(b))) == 1
  {
    match b >> 4
    case 0x4 => assert Product(b, Unaffine(Sbox(b))) == 1;
    case 0x5 => assert Product(b, Unaffine(Sbox(b))) == 1;
    case 0x6 => assert Product(b, Unaffine(Sbox(b))) == 1;
    case _ =>
  }

  lemma ThirdRows(b: Byte)
    requires 0x80 <= b < 0xC0
    ensures Product(b, Unaffine(Sbox(b))) == 1
  {
    match b >> 4
    case 0x8 => assert Product(b, Unaffine(Sbox(b))) == 1;
    case 0x9 => assert Product(b, Unaffine(Sbox(b))) == 1;
    case 0xa => assert Product(b, Unaffine(Sbox(b))) == 1;
    case _ =>
  }

  lemma LastRows(b: Byte)
    requires b >= 0xC0
    ensures Product(b, Unaffine(Sbox(b))) == 1
  {
    match b >> 4
    case 0xc => assert Product(b, Unaffine(Sbox(b))) == 1;
    case 0xd => assert Product(b, Unaffine(Sbox(b))) == 1;
    case 0xe => assert Product(b, Unaffine(Sbox(b))) == 1;
    case _ =>
  }

  /** The substitution table is the affine map of the inverse in the field, with 0 for 0. */
  lemma SboxIsAffineInverse(b: Byte) returns (inverse: Byte)
    ensures if b == 0 then inverse == 0 else GfMul(b, inverse) == 1
    ensures Sbox(b) == Affine(inverse)
  {
    hide Affine, GfMul, Product;
    inverse := Unaffine(Sbox(b));
    AffineUndone(Sbox(b));
    IsProduct(b, inverse);
    if b >= 0xC0 {
      LastRows(b);
    } else if b >= 0x80 {
      ThirdRows(b);
    } else if b >= 0x40 {
      SecondRows(b);
    } else if b != 0 {
      FirstRows(b);
    }
  }

  /** The round constants are the powers of x. */
  lemma RconDoubles(i: nat)
    ensures Rcon(0) == 1 && (i < 9 ==> Rcon(i + 1) == Xtime(Rcon(i)))
  {}

  // ---- a round column by column ----------------------------------------------------------------------------

  /** Row r of ShiftRows turns left by r. */
  lemma ShiftRowsTurns(s: Block, r: nat, c: nat)
    requires r < 4 && c < 4
    ensures ShiftRows(s)[r + 4 * c] == s[r + 4 * ((c + r) % 4)]
    ensures InvShiftRows(s)[r + 4 * ((c + r) % 4)] == s[r + 4 * c]
  {
    match r
    case 0 => match c { case 0 => case 1 => case 2 => case _ => }
    case 1 => match c { case 0 => case 1 => case 2 => case _ => }
    case 2 => match c { case 0 => case 1 => case 2 => case _ => }
    case _ => match c { case 0 => case 1 => case 2 => case _ => }
  }

  function Subbed(w: Word): Word {
    [Sbox(w[0]), Sbox(w[1]), Sbox(w[2]), Sbox(w[3])]
  }

  function Added(w: Word, k: Word): Word {
    [Xor(w[0], k[0]), Xor(w[1], k[1]), Xor(w[2], k[2]), Xor(w[3], k[3])]
  }

  // What ShiftRows brings together in one column.
  function Diagonal(p: Word, q: Word, r: Word, t: Word): Word {
    [p[0], q[1], r[2], t[3]]
  }

  lemma SubBytesByColumns(p: Word, q: Word, r: Word, t: Word)
    ensures SubBytes(p + q + r + t) == Subbed(p) + Subbed(q) + Subbed(r) + Subbed(t)
  {
    hide Sbox;
    var s := SubBytes(p + q + r + t);
    SliceIs(s, 0, Subbed(p));
    SliceIs(s, 4, Subbed(q));
    SliceIs(s, 8, Subbed(r));
    SliceIs(s, 12, Subbed(t));
    hide *;
    FourWords(s);
  }

  lemma SliceIs(s: Block, i: nat, w: Word)
    requires i + 4 <= 16 && forall k | 0 <= k < 4 :: s[i + k] == w[k]
    ensures s[i..i + 4] == w
  {}

  lemma FourWords(s: Block)
    ensures s == s[0..4] + s[4..8] + s[8..12] + s[12..16]
  {}

  lemma ShiftRowsByColumns(p: Word, q: Word, r: Word, t: Word)
    ensures ShiftRows(p + q + r + t) ==
      Diagonal(p, q, r, t) + Diagonal(q, r, t, p) + Diagonal(r, t, p, q) + Diagonal(t, p, q, r)
  {}

  lemma MixColumnsByColumns(p: Word, q: Word, r: Word, t: Word)
    ensures MixColumns(p + q + r + t) == MixColumn(p) + MixColumn(q) + MixColumn(r) + MixColumn(t)
  {
    hide MixColumn, Column;
    ColumnsJoin(p + q + r + t, p, q, r, t);
  }

  lemma AddedByColumns(p: Word, q: Word, r: Word, t: Word, k0: Word, k1: Word, k2: Word, k3: Word)
    ensures AddRoundKey(p + q + r + t, k0 + k1 + k2 + k3) == Added(p, k0) + Added(q, k1) + Added(r, k2) + Added(t, k3)
  {
    hide Xor;
    var s := AddRoundKey(p + q + r + t, k0 + k1 + k2 + k3);
    SliceIs(s, 0, Added(p, k0));
    SliceIs(s, 4, Added(q, k1));
    SliceIs(s, 8, Added(r, k2));
    SliceIs(s, 12, Added(t, k3));
    hide *;
    FourWords(s);
  }

  // A column after a round comes of a diagonal before it; the last round does not mix.
  function RoundColumn(p: Word, q: Word, r: Word, t: Word, k: Word): Word {
    var a, b, c, d := Sbox(p[0]), Sbox(q[1]), Sbox(r[2]), Sbox(t[3]);
    [Xor(MixRow(a, b, c, d), k[0]), Xor(MixRow(b, c, d, a), k[1]), Xor(MixRow(c, d, a, b), k[2]), Xor(MixRow(d, a, b, c), k[3])]
  }

  function LastColumn(p: Word, q: Word, r: Word, t: Word, k: Word): Word {
    [Xor(Sbox(p[0]), k[0]), Xor(Sbox(q[1]), k[1]), Xor(Sbox(r[2]), k[2]), Xor(Sbox(t[3]), k[3])]
  }

  lemma ColumnFlat(p: Word, q: Word, r: Word, t: Word, k: Word)
    ensures RoundColumn(p, q, r, t, k) == Added(MixColumn(Diagonal(Subbed(p), Subbed(q), Subbed(r), Subbed(t))), k)
    ensures LastColumn(p, q, r, t, k) == Added(Diagonal(Subbed(p), Subbed(q), Subbed(r), Subbed(t)), k)
  {
    hide Sbox, Xor, MixRow;
  }

  lemma RoundByColumns(p: Word, q: Word, r: Word, t: Word, k0: Word, k1: Word, k2: Word, k3: Word)
    ensures AddRoundKey(MixColumns(ShiftRows(SubBytes(p + q + r + t))), k0 + k1 + k2 + k3) ==
      RoundColumn(p, q, r, t, k0) + RoundColumn(q, r, t, p, k1) + RoundColumn(r, t, p, q, k2) + RoundColumn(t, p, q, r, k3)
    ensures AddRoundKey(ShiftRows(SubBytes(p + q + r + t)), k0 + k1 + k2 + k3) ==
      LastColumn(p, q, r, t, k0) + LastColumn(q, r, t, p, k1) + LastColumn(r, t, p, q, k2) + LastColumn(t, p, q, r, k3)
  {
    hide *;
    ColumnFlat(p, q, r, t, k0);
    ColumnFlat(q, r, t, p, k1);
    ColumnFlat(r, t, p, q, k2);
    ColumnFlat(t, p, q, r, k3);
    var a, b, c, d := Subbed(p), Subbed(q), Subbed(r), Subbed(t);
    SubBytesByColumns(p, q, r, t);
    ShiftRowsByColumns(a, b, c, d);
    var e, f, g, h := Diagonal(a, b, c, d), Diagonal(b, c, d, a), Diagonal(c, d, a, b), Diagonal(d, a, b, c);
    MixColumnsByColumns(e, f, g, h);
    AddedByColumns(MixColumn(e), MixColumn(f), MixColumn(g), MixColumn(h), k0, k1, k2, k3);
    AddedByColumns(e, f, g, h, k0, k1, k2, k3);
  }
}
