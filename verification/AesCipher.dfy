/** AES-128 as FIPS 197 defines it: the key schedule (section 5.2), the cipher (section 5.1), which
    the repository does not contain and which serves here as the specification, and the inverse
    cipher (section 5.3), which is what the repository runs. The two are proved to undo each other.

    The sixteen bytes of a state run down its four columns one after another: four for each. */
module AesCipher {
  import opened AesTables

  type Block = s: seq<Byte> | |s| == 16 witness seq(16, _ => 0 as Byte)
  type RoundKeys = s: seq<Byte> | |s| == 176 witness seq(176, _ => 0 as Byte)

  // ---- GF(2^8) ----------------------------------------------------------------------------

  // Addition in the field. It has a name of its own so that proofs can reorder sums of bytes
  // term by term instead of bit by bit.
  function Xor(a: Byte, b: Byte): Byte { a ^ b }

  lemma XorComm(u: Byte, v: Byte)
    ensures Xor(u, v) == Xor(v, u)
  {}

  lemma XorAssoc(u: Byte, v: Byte, x: Byte)
    ensures Xor(Xor(u, v), x) == Xor(u, Xor(v, x))
  {}

  lemma XorSwap(u: Byte, v: Byte, x: Byte, y: Byte)
    ensures Xor(Xor(u, v), Xor(x, y)) == Xor(Xor(u, x), Xor(v, y))
  {
    XorAssoc(u, v, Xor(x, y));
    XorAssoc(v, x, y);
    XorComm(v, x);
    XorAssoc(x, v, y);
    XorAssoc(u, x, Xor(v, y));
  }

  /** Multiplication by x, modulo x^8 + x^4 + x^3 + x + 1. */
  function Xtime(a: Byte): Byte {
    (a << 1) ^ (if a & 0x80 != 0 then 0x1b else 0x00)
  }

  /** The product of a with the polynomial of the n low bits of b (FIPS 197, section 4.2). */
  function GfMulBits(a: Byte, b: Byte, n: nat): Byte
    decreases n
  {
    if n == 0 then 0
    else Xor(if b & 1 != 0 then a else 0, GfMulBits(Xtime(a), b >> 1, n - 1))
  }

  function GfMul(a: Byte, b: Byte): Byte {
    GfMulBits(a, b, 8)
  }

  // The multiples the two matrices use, as sums of a, ax, ax^2 and ax^3.
  function Times2(a: Byte): Byte { Xtime(a) }
  function Times3(a: Byte): Byte { Xor(a, Xtime(a)) }
  function Times9(a: Byte): Byte { Xor(a, Xtime(Xtime(Xtime(a)))) }
  function Times11(a: Byte): Byte { Xor(Xor(a, Xtime(a)), Xtime(Xtime(Xtime(a)))) }
  function Times13(a: Byte): Byte { Xor(Xor(a, Xtime(Xtime(a))), Xtime(Xtime(Xtime(a)))) }
  function Times14(a: Byte): Byte { Xor(Xor(Xtime(a), Xtime(Xtime(a))), Xtime(Xtime(Xtime(a)))) }

  lemma BitStep(a: Byte, b: Byte, n: nat)
    ensures GfMulBits(a, b, n + 1) == Xor(if b & 1 != 0 then a else 0, GfMulBits(Xtime(a), b >> 1, n))
  {}

  lemma {:induction false} NoBits(a: Byte, n: nat)
    ensures GfMulBits(a, 0, n) == 0
    decreases n
  {
    if n > 0 {
      NoBits(Xtime(a), n - 1);
      hide Xtime;
      assert 0 as Byte >> 1 == 0 && 0 as Byte & 1 == 0;
    }
  }

  // A multiplier of four bits.
  lemma FourBits(a: Byte, b: Byte)
    requires b < 16
    ensures GfMul(a, b) ==
      Xor(if b & 1 != 0 then a else 0,
          Xor(if b & 2 != 0 then Xtime(a) else 0,
              Xor(if b & 4 != 0 then Xtime(Xtime(a)) else 0, if b & 8 != 0 then Xtime(Xtime(Xtime(a))) else 0)))
  {
    hide GfMulBits, Xtime, Xor;
    var a1 := Xtime(a);
    var a2 := Xtime(a1);
    var a3 := Xtime(a2);
    ShiftsOut(b);
    BitStep(a, b, 7);
    BitStep(a1, b >> 1, 6);
    BitStep(a2, b >> 1 >> 1, 5);
    BitStep(a3, b >> 1 >> 1 >> 1, 4);
    NoBits(Xtime(a3), 4);
    XorZero(if b & 8 != 0 then a3 else 0);
  }

  lemma ShiftsOut(b: Byte)
    requires b < 16
    ensures (b >> 1) & 1 != 0 <==> b & 2 != 0
    ensures (b >> 1 >> 1) & 1 != 0 <==> b & 4 != 0
    ensures (b >> 1 >> 1 >> 1) & 1 != 0 <==> b & 8 != 0
    ensures b >> 1 >> 1 >> 1 >> 1 == 0
  {}

  lemma XorZero(a: Byte)
    ensures Xor(a, 0) == a && Xor(0, a) == a
  {}

  lemma GfMulBy9And11(a: Byte)
    ensures GfMul(a, 9) == Times9(a)
    ensures GfMul(a, 11) == Times11(a)
  {
    hide GfMul, Xtime, Xor;
    var a1, a3 := Xtime(a), Xtime(Xtime(Xtime(a)));
    FourBits(a, 9);
    FourBits(a, 11);
    XorZero(a3);
    XorAssoc(a, a1, a3);
  }

  lemma GfMulBy13And14(a: Byte)
    ensures GfMul(a, 13) == Times13(a)
    ensures GfMul(a, 14) == Times14(a)
  {
    hide GfMul, Xtime, Xor;
    var a1, a2, a3 := Xtime(a), Xtime(Xtime(a)), Xtime(Xtime(Xtime(a)));
    FourBits(a, 13);
    FourBits(a, 14);
    XorZero(Xor(a2, a3));
    XorZero(Xor(a1, Xor(a2, a3)));
    XorAssoc(a, a2, a3);
    XorAssoc(a1, a2, a3);
  }

  lemma XtimeLinear(x: Byte, y: Byte)
    ensures Xtime(Xor(x, y)) == Xor(Xtime(x), Xtime(y))
  {
    if x & 0x80 != 0 {
      if y & 0x80 != 0 {} else {}
    } else {
      if y & 0x80 != 0 {} else {}
    }
  }

  /** Multiplying by x, x^2 and x^3 distributes over sums; so do the multiples built from them. */
  lemma PowersLinear(x: Byte, y: Byte)
    ensures Xtime(Xor(x, y)) == Xor(Xtime(x), Xtime(y))
    ensures Xtime(Xtime(Xor(x, y))) == Xor(Xtime(Xtime(x)), Xtime(Xtime(y)))
    ensures Xtime(Xtime(Xtime(Xor(x, y)))) == Xor(Xtime(Xtime(Xtime(x))), Xtime(Xtime(Xtime(y))))
  {
    XtimeLinear(x, y);
    XtimeLinear(Xtime(x), Xtime(y));
    XtimeLinear(Xtime(Xtime(x)), Xtime(Xtime(y)));
  }

  lemma TimesLinear(x: Byte, y: Byte)
    ensures Times2(Xor(x, y)) == Xor(Times2(x), Times2(y))
    ensures Times3(Xor(x, y)) == Xor(Times3(x), Times3(y))
    ensures Times9(Xor(x, y)) == Xor(Times9(x), Times9(y))
    ensures Times11(Xor(x, y)) == Xor(Times11(x), Times11(y))
    ensures Times13(Xor(x, y)) == Xor(Times13(x), Times13(y))
    ensures Times14(Xor(x, y)) == Xor(Times14(x), Times14(y))
  {
    hide Xor, Xtime;
    PowersLinear(x, y);
    var x1, y1 := Xtime(x), Xtime(y);
    var x2, y2 := Xtime(x1), Xtime(y1);
    var x3, y3 := Xtime(x2), Xtime(y2);
    XorSwap(x, y, x1, y1);
    XorSwap(x, y, x2, y2);
    XorSwap(x, y, x3, y3);
    XorSwap(x1, y1, x2, y2);
    XorSwap(Xor(x, x1), Xor(y, y1), x3, y3);
    XorSwap(Xor(x, x2), Xor(y, y2), x3, y3);
    XorSwap(Xor(x1, x2), Xor(y1, y2), x3, y3);
  }

  // ---- the four steps and their inverses ----------------------------------------------------

  function AddRoundKey(s: Block, k: Block): Block {
    seq(16, i requires 0 <= i < 16 => Xor(s[i], k[i]))
  }

  function SubBytes(s: Block): Block {
    seq(16, i requires 0 <= i < 16 => Sbox(s[i]))
  }

  function InvSubBytes(s: Block): Block {
    seq(16, i requires 0 <= i < 16 => InvSbox(s[i]))
  }

  /** Row r moves r columns to the left. */
  function ShiftRows(s: Block): Block {
    [s[0], s[5], s[10], s[15], s[4], s[9], s[14], s[3], s[8], s[13], s[2], s[7], s[12], s[1], s[6], s[11]]
  }

  /** Row r moves r columns to the right. */
  function InvShiftRows(s: Block): Block {
    [s[0], s[13], s[10], s[7], s[4], s[1], s[14], s[11], s[8], s[5], s[2], s[15], s[12], s[9], s[6], s[3]]
  }

  /** One output byte of MixColumns, from the column read downwards from that byte's own row. */
  function MixRow(a: Byte, b: Byte, c: Byte, d: Byte): Byte {
    Xor(Xor(Times2(a), Times3(b)), Xor(c, d))
  }

  function InvMixRow(a: Byte, b: Byte, c: Byte, d: Byte): Byte {
    Xor(Xor(Times14(a), Times11(b)), Xor(Times13(c), Times9(d)))
  }

  type Word = s: seq<Byte> | |s| == 4 witness seq(4, _ => 0 as Byte)

  function Column(s: Block, c: nat): Word
    requires c < 4
  {
    s[4 * c..4 * c + 4]
  }

  function MixColumn(w: Word): Word {
    [MixRow(w[0], w[1], w[2], w[3]), MixRow(w[1], w[2], w[3], w[0]),
     MixRow(w[2], w[3], w[0], w[1]), MixRow(w[3], w[0], w[1], w[2])]
  }

  function InvMixColumn(w: Word): Word {
    [InvMixRow(w[0], w[1], w[2], w[3]), InvMixRow(w[1], w[2], w[3], w[0]),
     InvMixRow(w[2], w[3], w[0], w[1]), InvMixRow(w[3], w[0], w[1], w[2])]
  }

  function MixColumns(s: Block): Block {
    MixColumn(Column(s, 0)) + MixColumn(Column(s, 1)) + MixColumn(Column(s, 2)) + MixColumn(Column(s, 3))
  }

  function InvMixColumns(s: Block): Block {
    InvMixColumn(Column(s, 0)) + InvMixColumn(Column(s, 1)) + InvMixColumn(Column(s, 2)) + InvMixColumn(Column(s, 3))
  }

  // ---- the two mixing matrices are inverse ----------------------------------------------------

  lemma MixRowLinear(a: Byte, b: Byte, c: Byte, d: Byte, p: Byte, q: Byte, r: Byte, s: Byte)
    ensures MixRow(Xor(a, p), Xor(b, q), Xor(c, r), Xor(d, s)) == Xor(MixRow(a, b, c, d), MixRow(p, q, r, s))
  {
    TimesLinear(a, p);
    TimesLinear(b, q);
    XorSwap(Times2(a), Times2(p), Times3(b), Times3(q));
    XorSwap(c, r, d, s);
    XorSwap(Xor(Times2(a), Times3(b)), Xor(Times2(p), Times3(q)), Xor(c, d), Xor(r, s));
  }

  lemma InvMixRowLinear(a: Byte, b: Byte, c: Byte, d: Byte, p: Byte, q: Byte, r: Byte, s: Byte)
    ensures InvMixRow(Xor(a, p), Xor(b, q), Xor(c, r), Xor(d, s))
         == Xor(InvMixRow(a, b, c, d), InvMixRow(p, q, r, s))
  {
    TimesLinear(a, p);
    TimesLinear(b, q);
    TimesLinear(c, r);
    TimesLinear(d, s);
    XorSwap(Times14(a), Times14(p), Times11(b), Times11(q));
    XorSwap(Times13(c), Times13(r), Times9(d), Times9(s));
    XorSwap(Xor(Times14(a), Times11(b)), Xor(Times14(p), Times11(q)),
            Xor(Times13(c), Times9(d)), Xor(Times13(r), Times9(s)));
  }

  // The first row of the product of the two matrices, one unknown at a time, in both orders.
  lemma InvMixCoefficients(a: Byte)
    ensures InvMixRow(Times2(a), a, a, Times3(a)) == a
    ensures InvMixRow(Times3(a), Times2(a), a, a) == 0
  {}

  lemma InvMixCoefficients'(a: Byte)
    ensures InvMixRow(a, Times3(a), Times2(a), a) == 0
    ensures InvMixRow(a, a, Times3(a), Times2(a)) == 0
  {}

  lemma MixCoefficients(a: Byte)
    ensures MixRow(Times14(a), Times9(a), Times13(a), Times11(a)) == a
    ensures MixRow(Times11(a), Times14(a), Times9(a), Times13(a)) == 0
  {}

  lemma MixCoefficients'(a: Byte)
    ensures MixRow(Times13(a), Times11(a), Times14(a), Times9(a)) == 0
    ensures MixRow(Times9(a), Times13(a), Times11(a), Times14(a)) == 0
  {}

  lemma XorZeros(a: Byte)
    ensures Xor(Xor(a, 0), Xor(0, 0)) == a
  {}

  // A sum of four terms does not depend on which of them comes first.
  lemma XorRotate(a: Byte, b: Byte, c: Byte, d: Byte)
    ensures Xor(Xor(a, b), Xor(c, d)) == Xor(Xor(d, a), Xor(b, c))
  {
    XorComm(Xor(d, a), Xor(b, c));
    XorSwap(b, c, d, a);
    XorComm(b, d);
    XorComm(c, a);
    XorSwap(d, b, a, c);
    XorComm(d, a);
    XorSwap(a, d, b, c);
    XorComm(d, c);
  }

  lemma InvMixRowUndoesMixRow(a: Byte, b: Byte, c: Byte, d: Byte)
    ensures InvMixRow(MixRow(a, b, c, d), MixRow(b, c, d, a), MixRow(c, d, a, b), MixRow(d, a, b, c)) == a
  {
    // each MixColumns byte as its a term, b term, c term and d term
    var a2, b2, c2, d2 := Times2(a), Times2(b), Times2(c), Times2(d);
    var a3, b3, c3, d3 := Times3(a), Times3(b), Times3(c), Times3(d);
    XorRotate(b2, c3, d, a);
    XorRotate(c2, d3, a, b);
    XorRotate(b, c2, d3, a);
    XorRotate(d2, a3, b, c);
    XorRotate(c, d2, a3, b);
    XorRotate(b, c, d2, a3);
    assert MixRow(b, c, d, a) == Xor(Xor(a, b2), Xor(c3, d));
    assert MixRow(c, d, a, b) == Xor(Xor(a, b), Xor(c2, d3));
    assert MixRow(d, a, b, c) == Xor(Xor(a3, b), Xor(c, d2));
    InvMixRowLinear(Xor(a2, b3), Xor(a, b2), Xor(a, b), Xor(a3, b), Xor(c, d), Xor(c3, d), Xor(c2, d3), Xor(c, d2));
    InvMixRowLinear(a2, a, a, a3, b3, b2, b, b);
    InvMixRowLinear(c, c3, c2, c, d, d, d3, d2);
    InvMixCoefficients(a);
    InvMixCoefficients(b);
    InvMixCoefficients'(c);
    InvMixCoefficients'(d);
    XorZeros(a);
  }

  lemma MixRowUndoesInvMixRow(a: Byte, b: Byte, c: Byte, d: Byte)
    ensures MixRow(InvMixRow(a, b, c, d), InvMixRow(b, c, d, a), InvMixRow(c, d, a, b), InvMixRow(d, a, b, c)) == a
  {
    var a9, b9, c9, d9 := Times9(a), Times9(b), Times9(c), Times9(d);
    var a11, b11, c11, d11 := Times11(a), Times11(b), Times11(c), Times11(d);
    var a13, b13, c13, d13 := Times13(a), Times13(b), Times13(c), Times13(d);
    var a14, b14, c14, d14 := Times14(a), Times14(b), Times14(c), Times14(d);
    XorRotate(b14, c11, d13, a9);
    XorRotate(c14, d11, a13, b9);
    XorRotate(b9, c14, d11, a13);
    XorRotate(d14, a11, b13, c9);
    XorRotate(c9, d14, a11, b13);
    XorRotate(b13, c9, d14, a11);
    assert InvMixRow(b, c, d, a) == Xor(Xor(a9, b14), Xor(c11, d13));
    assert InvMixRow(c, d, a, b) == Xor(Xor(a13, b9), Xor(c14, d11));
    assert InvMixRow(d, a, b, c) == Xor(Xor(a11, b13), Xor(c9, d14));
    MixRowLinear(Xor(a14, b11), Xor(a9, b14), Xor(a13, b9), Xor(a11, b13),
                 Xor(c13, d9), Xor(c11, d13), Xor(c14, d11), Xor(c9, d14));
    MixRowLinear(a14, a9, a13, a11, b11, b14, b9, b13);
    MixRowLinear(c13, c11, c14, c9, d9, d13, d11, d14);
    MixCoefficients(a);
    MixCoefficients(b);
    MixCoefficients'(c);
    MixCoefficients'(d);
    XorZeros(a);
  }

  // ---- each step is undone by its inverse --------------------------------------------------

  lemma XorCancels(a: Byte, k: Byte)
    ensures Xor(Xor(a, k), k) == a
  {}

  lemma AddRoundKeyCancels(s: Block, k: Block)
    ensures AddRoundKey(AddRoundKey(s, k), k) == s
  {
    forall i | 0 <= i < 16
      ensures AddRoundKey(AddRoundKey(s, k), k)[i] == s[i]
    {
      XorCancels(s[i], k[i]);
    }
  }

  lemma SubBytesCancels(s: Block)
    ensures InvSubBytes(SubBytes(s)) == s
    ensures SubBytes(InvSubBytes(s)) == s
  {
    forall i | 0 <= i < 16
      ensures InvSubBytes(SubBytes(s))[i] == s[i] && SubBytes(InvSubBytes(s))[i] == s[i]
    {
      InvSboxUndoesSbox(s[i]);
      SboxUndoesInvSbox(s[i]);
    }
  }

  lemma ShiftRowsCancels(s: Block)
    ensures InvShiftRows(ShiftRows(s)) == s
    ensures ShiftRows(InvShiftRows(s)) == s
  {}

  lemma MixColumnCancels(w: Word)
    ensures InvMixColumn(MixColumn(w)) == w
    ensures MixColumn(InvMixColumn(w)) == w
  {
    hide MixRow, InvMixRow;
    var a, b, c, d := w[0], w[1], w[2], w[3];
    InvMixRowUndoesMixRow(a, b, c, d);
    InvMixRowUndoesMixRow(b, c, d, a);
    InvMixRowUndoesMixRow(c, d, a, b);
    InvMixRowUndoesMixRow(d, a, b, c);
    MixRowUndoesInvMixRow(a, b, c, d);
    MixRowUndoesInvMixRow(b, c, d, a);
    MixRowUndoesInvMixRow(c, d, a, b);
    MixRowUndoesInvMixRow(d, a, b, c);
    assert w == [a, b, c, d];
  }

  // A block is its four columns, and each can be read back from their concatenation.
  lemma ColumnsJoin(s: Block, p: Word, q: Word, r: Word, t: Word)
    ensures Column(s, 0) + Column(s, 1) + Column(s, 2) + Column(s, 3) == s
    ensures Column(p + q + r + t, 0) == p && Column(p + q + r + t, 1) == q
    ensures Column(p + q + r + t, 2) == r && Column(p + q + r + t, 3) == t
  {}

  lemma MixColumnsCancels(s: Block)
    ensures InvMixColumns(MixColumns(s)) == s
    ensures MixColumns(InvMixColumns(s)) == s
  {
    hide MixColumn, InvMixColumn, Column;
    var p, q, r, t := Column(s, 0), Column(s, 1), Column(s, 2), Column(s, 3);
    ColumnsJoin(s, MixColumn(p), MixColumn(q), MixColumn(r), MixColumn(t));
    ColumnsJoin(s, InvMixColumn(p), InvMixColumn(q), InvMixColumn(r), InvMixColumn(t));
    MixColumnCancels(p);
    MixColumnCancels(q);
    MixColumnCancels(r);
    MixColumnCancels(t);
  }

  // ---- key schedule, cipher and inverse cipher ------------------------------------------------

  /** SubWord(RotWord(t)) plus the round constant. */
  function ScheduleCore(t: Word, rcon: Byte): Word {
    [Xor(Sbox(t[1]), rcon), Sbox(t[2]), Sbox(t[3]), Sbox(t[0])]
  }

  function NextWord(i: nat, before: Word, fourBack: Word): Word
    requires i >= 4
  {
    var u := if i % 4 == 0 then ScheduleCore(before, Rcon(i / 4 - 1)) else before;
    [Xor(fourBack[0], u[0]), Xor(fourBack[1], u[1]), Xor(fourBack[2], u[2]), Xor(fourBack[3], u[3])]
  }

  /** Word i of the expanded key (FIPS 197, section 5.2, with Nk = 4). */
  function KeyWord(key: Block, i: nat): Word {
    if i < 4 then Column(key, i) else NextWord(i, KeyWord(key, i - 1), KeyWord(key, i - 4))
  }

  function ExpandedKey(key: Block): RoundKeys {
    seq(176, j requires 0 <= j < 176 => KeyWord(key, j / 4)[j % 4])
  }

  function RoundKey(rk: RoundKeys, round: nat): Block
    requires round <= 10
  {
    rk[16 * round..16 * round + 16]
  }

  /** The cipher's state after the initial key addition and `round` of the nine full rounds. */
  function EncState(rk: RoundKeys, plain: Block, round: nat): Block
    requires round <= 9
  {
    if round == 0 then AddRoundKey(plain, RoundKey(rk, 0))
    else AddRoundKey(MixColumns(ShiftRows(SubBytes(EncState(rk, plain, round - 1)))), RoundKey(rk, round))
  }

  /** The cipher of FIPS 197, section 5.1: the specification the decryptor is measured against. */
  function Cipher(rk: RoundKeys, plain: Block): Block {
    AddRoundKey(ShiftRows(SubBytes(EncState(rk, plain, 9))), RoundKey(rk, 10))
  }

  /** The decryptor's state when `round` of its nine full rounds are still to come. */
  function DecState(rk: RoundKeys, coded: Block, round: nat): Block
    requires round <= 9
    decreases 9 - round
  {
    if round == 9 then AddRoundKey(coded, RoundKey(rk, 10))
    else
      InvMixColumns(AddRoundKey(InvSubBytes(InvShiftRows(DecState(rk, coded, round + 1))), RoundKey(rk, round + 1)))
  }

  /** The inverse cipher of FIPS 197, section 5.3. */
  function InvCipher(rk: RoundKeys, coded: Block): Block {
    AddRoundKey(InvSubBytes(InvShiftRows(DecState(rk, coded, 0))), RoundKey(rk, 0))
  }

  // Decrypting a ciphertext retraces the cipher's states in reverse.
  lemma {:induction false} DecStateRetraces(rk: RoundKeys, plain: Block, round: nat)
    requires round <= 9
    ensures DecState(rk, Cipher(rk, plain), round) == ShiftRows(SubBytes(EncState(rk, plain, round)))
    decreases 9 - round
  {
    hide AddRoundKey, SubBytes, InvSubBytes, ShiftRows, InvShiftRows, MixColumns, InvMixColumns, RoundKey;
    if round == 9 {
      AddRoundKeyCancels(ShiftRows(SubBytes(EncState(rk, plain, 9))), RoundKey(rk, 10));
    } else {
      var e := EncState(rk, plain, round);
      var e' := EncState(rk, plain, round + 1);
      DecStateRetraces(rk, plain, round + 1);
      ShiftRowsCancels(SubBytes(e'));
      SubBytesCancels(e');
      AddRoundKeyCancels(MixColumns(ShiftRows(SubBytes(e))), RoundKey(rk, round + 1));
      MixColumnsCancels(ShiftRows(SubBytes(e)));
    }
  }

  /** The repository's decryptor undoes the FIPS 197 cipher, whatever the round keys. */
  lemma InvCipherUndoesCipher(rk: RoundKeys, plain: Block)
    ensures InvCipher(rk, Cipher(rk, plain)) == plain
  {
    hide AddRoundKey, SubBytes, InvSubBytes, ShiftRows, InvShiftRows, MixColumns, InvMixColumns, RoundKey;
    var e := EncState(rk, plain, 0);
    DecStateRetraces(rk, plain, 0);
    ShiftRowsCancels(SubBytes(e));
    SubBytesCancels(e);
    AddRoundKeyCancels(plain, RoundKey(rk, 0));
  }

  // Encrypting a decrypted block retraces the decryptor's states in reverse.
  lemma {:induction false} EncStateRetraces(rk: RoundKeys, coded: Block, round: nat)
    requires round <= 9
    ensures EncState(rk, InvCipher(rk, coded), round) == InvSubBytes(InvShiftRows(DecState(rk, coded, round)))
  {
    hide AddRoundKey, SubBytes, InvSubBytes, ShiftRows, InvShiftRows, MixColumns, InvMixColumns, RoundKey;
    if round == 0 {
      AddRoundKeyCancels(InvSubBytes(InvShiftRows(DecState(rk, coded, 0))), RoundKey(rk, 0));
    } else {
      var d := DecState(rk, coded, round);
      var d' := DecState(rk, coded, round - 1);
      EncStateRetraces(rk, coded, round - 1);
      SubBytesCancels(InvShiftRows(d'));
      ShiftRowsCancels(d');
      MixColumnsCancels(AddRoundKey(InvSubBytes(InvShiftRows(d)), RoundKey(rk, round)));
      AddRoundKeyCancels(InvSubBytes(InvShiftRows(d)), RoundKey(rk, round));
    }
  }

  lemma CipherUndoesInvCipher(rk: RoundKeys, coded: Block)
    ensures Cipher(rk, InvCipher(rk, coded)) == coded
  {
    hide AddRoundKey, SubBytes, InvSubBytes, ShiftRows, InvShiftRows, MixColumns, InvMixColumns, RoundKey;
    var d := DecState(rk, coded, 9);
    EncStateRetraces(rk, coded, 9);
    SubBytesCancels(InvShiftRows(d));
    ShiftRowsCancels(d);
    AddRoundKeyCancels(coded, RoundKey(rk, 10));
  }
}
