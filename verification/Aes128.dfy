/** src/aes128.c: key expansion, block decryption and CBC decryption over byte buffers. */
module Aes128 {
  import opened AesTables
  import opened AesCipher
  import opened Cbc

  // One round of the shift-and-add loop leaves the accumulated product unchanged.
  lemma GfMulStep(p: Byte, a: Byte, b: Byte, n: nat)
    requires n > 0
    ensures Xor(p, GfMulBits(a, b, n))
         == Xor(if b & 1 != 0 then Xor(p, a) else p, GfMulBits(Xtime(a), b >> 1, n - 1))
  {
    hide Xtime, Xor;
    var rest := GfMulBits(Xtime(a), b >> 1, n - 1);
    if b & 1 != 0 {
      XorAssoc(p, a, rest);
    } else {
      XorZeroLeft(rest);
    }
  }

  lemma XorZeroLeft(a: Byte)
    ensures Xor(0, a) == a && Xor(a, 0) == a
  {}

  method GMul(a0: Byte, b0: Byte) returns (p: Byte)
    ensures p == GfMul(a0, b0)
  {
    hide Xtime, Xor;
    p := 0;
    var a, b := a0, b0;
    XorZeroLeft(GfMulBits(a0, b0, 8));
    for i := 0 to 8
      invariant Xor(p, GfMulBits(a, b, 8 - i)) == GfMulBits(a0, b0, 8)
    {
      GfMulStep(p, a, b, 8 - i);
      if b & 1 != 0 {
        p := Xor(p, a);
      }
      a := Xtime(a);
      b := b >> 1;
    }
    XorZeroLeft(p);
  }

  // The four sums below come in the order the source adds them: row r of the matrix, applied to
  // a0..a3 from the top of the column.
  lemma RowSums(p: Byte, q: Byte, r: Byte, t: Byte)
    ensures Xor(Xor(Xor(p, q), r), t) == Xor(Xor(p, q), Xor(r, t))
    ensures Xor(Xor(Xor(p, q), r), t) == Xor(Xor(q, r), Xor(t, p))
    ensures Xor(Xor(Xor(p, q), r), t) == Xor(Xor(r, t), Xor(p, q))
    ensures Xor(Xor(Xor(p, q), r), t) == Xor(Xor(t, p), Xor(q, r))
  {
    hide Xor;
    XorAssoc(Xor(p, q), r, t);
    XorRotate(p, q, r, t);
    XorComm(Xor(p, q), Xor(r, t));
    XorRotate(q, r, t, p);
  }

  method InvMixOne(a0: Byte, a1: Byte, a2: Byte, a3: Byte) returns (b0: Byte, b1: Byte, b2: Byte, b3: Byte)
    ensures [b0, b1, b2, b3] == InvMixColumn([a0, a1, a2, a3])
  {
    hide Xor, Times9, Times11, Times13, Times14, GfMul;
    var x0, x1, x2, x3 := Multiples(a0);
    var y0, y1, y2, y3 := Multiples(a1);
    var z0, z1, z2, z3 := Multiples(a2);
    var w0, w1, w2, w3 := Multiples(a3);
    b0 := Xor(Xor(Xor(x3, y1), z2), w0);
    b1 := Xor(Xor(Xor(x0, y3), z1), w2);
    b2 := Xor(Xor(Xor(x2, y0), z3), w1);
    b3 := Xor(Xor(Xor(x1, y2), z0), w3);
    RowSums(x3, y1, z2, w0);
    RowSums(x0, y3, z1, w2);
    RowSums(x2, y0, z3, w1);
    RowSums(x1, y2, z0, w3);
  }

  method Multiples(a: Byte) returns (m9: Byte, m11: Byte, m13: Byte, m14: Byte)
    ensures m9 == Times9(a) && m11 == Times11(a) && m13 == Times13(a) && m14 == Times14(a)
  {
    hide Times9, Times11, Times13, Times14, GfMul;
    GfMulBy9And11(a);
    GfMulBy13And14(a);
    m9 := GMul(a, 9);
    m11 := GMul(a, 11);
    m13 := GMul(a, 13);
    m14 := GMul(a, 14);
  }

  // One turn of the column loop: column c is mixed, the other columns keep their bytes.
  method InvMixColumnAt(s: array<Byte>, c: nat)
    requires s.Length == 16 && c < 4
    modifies s
    ensures Column(s[..], c) == InvMixColumn(Column(old(s[..]), c))
    ensures forall k: nat | k < 4 && k != c :: Column(s[..], k) == Column(old(s[..]), k)
  {
    hide InvMixColumn;
    ghost var was := s[..];
    assert Column(was, c) == [s[4 * c], s[4 * c + 1], s[4 * c + 2], s[4 * c + 3]];
    var b0, b1, b2, b3 := InvMixOne(s[4 * c], s[4 * c + 1], s[4 * c + 2], s[4 * c + 3]);
    s[4 * c], s[4 * c + 1], s[4 * c + 2], s[4 * c + 3] := b0, b1, b2, b3;
    assert Column(s[..], c) == [b0, b1, b2, b3];
    forall k: nat | k < 4 && k != c
      ensures Column(s[..], k) == Column(was, k)
    {
      assert s[4 * k..4 * k + 4] == was[4 * k..4 * k + 4];
    }
  }

  method InvMixColumnsInPlace(s: array<Byte>)
    requires s.Length == 16
    modifies s
    ensures s[..] == InvMixColumns(old(s[..]))
  {
    hide InvMixColumn, Column;
    ghost var was := s[..];
    for c := 0 to 4
      invariant forall k: nat | k < c :: Column(s[..], k) == InvMixColumn(Column(was, k))
      invariant forall k: nat | c <= k < 4 :: Column(s[..], k) == Column(was, k)
    {
      InvMixColumnAt(s, c);
    }
    ColumnsJoin(s[..], was[0..4], was[0..4], was[0..4], was[0..4]);
  }

  // Where the byte at row r of column c goes: r columns to the right, round the end.
  function Moved(r: nat, c: nat): (i: nat)
    requires r < 4 && c < 4
    ensures i == r + 4 * (if c + r < 4 then c + r else c + r - 4)
  {
    assert (c + r) % 4 == if c + r < 4 then c + r else c + r - 4;
    r + 4 * ((c + r) % 4)
  }

  lemma MovedRow(s: Block, t: Block, r: nat)
    requires r < 4
    requires forall j: nat | j < 4 :: t[Moved(r, j)] == s[r + 4 * j]
    ensures t[r + 4 * (r % 4)] == s[r] && t[r + 4 * ((r + 1) % 4)] == s[r + 4]
    ensures t[r + 4 * ((r + 2) % 4)] == s[r + 8] && t[r + 4 * ((r + 3) % 4)] == s[r + 12]
  {
    assert Moved(r, 0) == r + 4 * (r % 4) && Moved(r, 1) == r + 4 * ((r + 1) % 4);
    assert Moved(r, 2) == r + 4 * ((r + 2) % 4) && Moved(r, 3) == r + 4 * ((r + 3) % 4);
  }

  lemma MovedTable(s: Block, t: Block)
    requires forall i: nat, j: nat | i < 4 && j < 4 :: t[Moved(i, j)] == s[i + 4 * j]
    ensures t == InvShiftRows(s)
  {
    hide Moved;
    MovedRow(s, t, 0);
    MovedRow(s, t, 1);
    MovedRow(s, t, 2);
    MovedRow(s, t, 3);
  }

  // Two places are one only if row and column are.
  lemma MovedApart(r: nat, c: nat, i: nat, j: nat)
    requires r < 4 && c < 4 && i < 4 && j < 4 && (r != i || c != j)
    ensures Moved(r, c) != Moved(i, j)
  {}

  // The inner loop: one row on its way into the copy.
  method MoveRow(s: array<Byte>, r: nat, t: array<Byte>)
    requires s.Length == 16 && t.Length == 16 && s != t && r < 4
    modifies t
    ensures forall j: nat | j < 4 :: t[Moved(r, j)] == s[r + 4 * j]
    ensures forall i: nat, j: nat | i < r && j < 4 :: t[Moved(i, j)] == old(t[Moved(i, j)])
  {
    hide Moved;
    for c := 0 to 4
      invariant forall i: nat, j: nat | i < r && j < 4 :: t[Moved(i, j)] == old(t[Moved(i, j)])
      invariant forall j: nat | j < c :: t[Moved(r, j)] == s[r + 4 * j]
    {
      forall i: nat, j: nat | i < r && j < 4 ensures Moved(i, j) != Moved(r, c) { MovedApart(r, c, i, j); }
      forall j: nat | j < c ensures Moved(r, j) != Moved(r, c) { MovedApart(r, c, r, j); }
      t[Moved(r, c)] := s[r + 4 * c];
    }
  }

  method InvShiftRowsInPlace(s: array<Byte>)
    requires s.Length == 16
    modifies s
    ensures s[..] == InvShiftRows(old(s[..]))
  {
    hide InvShiftRows, Moved;
    ghost var was := s[..];
    var t := new Byte[16];
    for r := 0 to 4
      invariant s[..] == was
      invariant forall i: nat, j: nat | i < r && j < 4 :: t[Moved(i, j)] == was[i + 4 * j]
    {
      MoveRow(s, r, t);
    }
    MovedTable(was, t[..]);
    CopyBlock(t, s);
  }

  method CopyBlock(src: array<Byte>, dst: array<Byte>)
    requires src.Length == 16 && dst.Length == 16 && src != dst
    modifies dst
    ensures dst[..] == src[..]
  {
    for i := 0 to 16
      invariant dst[..i] == src[..i]
    {
      dst[i] := src[i];
    }
  }

  method InvSubBytesInPlace(s: array<Byte>)
    requires s.Length == 16
    modifies s
    ensures s[..] == InvSubBytes(old(s[..]))
  {
    hide InvSbox;
    for i := 0 to 16
      invariant forall k | 0 <= k < i :: s[k] == InvSbox(old(s[k]))
      invariant forall k | i <= k < 16 :: s[k] == old(s[k])
    {
      s[i] := InvSbox(s[i]);
    }
  }

  method AddRoundKeyInPlace(s: array<Byte>, rk: array<Byte>, at: nat)
    requires s.Length == 16 && at + 16 <= rk.Length && s != rk
    modifies s
    ensures s[..] == AddRoundKey(old(s[..]), rk[at..at + 16])
  {
    hide Xor;
    for i := 0 to 16
      invariant forall k | 0 <= k < i :: s[k] == Xor(old(s[k]), rk[at + k])
      invariant forall k | i <= k < 16 :: s[k] == old(s[k])
    {
      s[i] := Xor(s[i], rk[at + i]);
    }
  }

  // The first n words of a round key buffer hold the first n words of the expanded key.
  ghost predicate WordsReady(rk: RoundKeys, key: Block, n: nat)
    requires n <= 44
  {
    forall w: nat | w < n :: WordAt(rk, w) == KeyWord(key, w)
  }

  function WordAt(rk: RoundKeys, w: nat): Word
    requires w < 44
  {
    [rk[4 * w], rk[4 * w + 1], rk[4 * w + 2], rk[4 * w + 3]]
  }

  lemma FirstWords(rk: RoundKeys, key: Block)
    requires rk[..16] == key
    ensures WordsReady(rk, key, 4)
  {
    forall w: nat | w < 4
      ensures WordAt(rk, w) == KeyWord(key, w)
    {
      assert forall k: nat | k < 4 :: WordAt(rk, w)[k] == key[4 * w + k];
    }
  }

  lemma OneMoreWord(was: RoundKeys, rk: RoundKeys, key: Block, i: nat)
    requires 4 <= i < 44 && WordsReady(was, key, i)
    requires rk[..4 * i] == was[..4 * i]
    requires WordAt(rk, i) == NextWord(i, WordAt(was, i - 1), WordAt(was, i - 4))
    ensures WordsReady(rk, key, i + 1)
  {
    hide NextWord;
    forall w: nat | w < i + 1
      ensures WordAt(rk, w) == KeyWord(key, w)
    {
      if w < i {
        assert forall k: nat | k < 4 * i :: rk[..4 * i][k] == rk[k] && was[..4 * i][k] == was[k];
        assert WordAt(rk, w) == WordAt(was, w);
      }
    }
  }

  lemma AllWords(rk: RoundKeys, key: Block)
    requires WordsReady(rk, key, 44)
    ensures rk == ExpandedKey(key)
  {
    hide KeyWord;
    forall j: nat | j < 176
      ensures rk[j] == ExpandedKey(key)[j]
    {
      assert WordAt(rk, j / 4) == KeyWord(key, j / 4);
      assert WordAt(rk, j / 4)[j % 4] == rk[4 * (j / 4) + j % 4];
    }
  }

  lemma XoredBlock(sum: Block, s: Block, k: Block)
    requires forall i | 0 <= i < 16 :: sum[i] == Xor(s[i], k[i])
    ensures sum == AddRoundKey(s, k)
  {
    hide Xor;
  }

  lemma StillSame(a: seq<Byte>, b: seq<Byte>, i: nat, j: nat)
    requires i <= j <= |a| == |b| && a[i..] == b[i..]
    ensures a[j..] == b[j..] && a[i..j] == b[i..j]
  {
    assert a[j..] == a[i..][j - i..] && a[i..j] == a[i..][..j - i];
    assert b[j..] == b[i..][j - i..] && b[i..j] == b[i..][..j - i];
  }

  lemma NextBlock(input: seq<Byte>, coded: seq<Byte>, off: nat)
    requires off + 16 <= |coded| <= |input| && input[off..|coded|] == coded[off..]
    ensures input[off..off + 16] == coded[off..off + 16] && input[off + 16..|coded|] == coded[off + 16..]
    ensures coded[off..] == coded[off..off + 16] + coded[off + 16..]
  {
    assert input[off..off + 16] == input[off..|coded|][..16] && input[off + 16..|coded|] == input[off..|coded|][16..];
  }

  lemma Sixteens(n: nat)
    ensures 16 * n % 16 == 0
  {}

  lemma Regrouped(done: seq<Byte>, sum: seq<Byte>, more: seq<Byte>)
    ensures done + (sum + more) == done + sum + more
  {}

  /** The expanded key of one AES-128 key (struct Aes128). */
  class Aes128 {
    const rk: array<Byte>

    ghost predicate Valid() {
      rk.Length == 176
    }

    // aes128_init
    constructor (key: Block)
      ensures Valid() && fresh(rk)
      ensures rk[..] == ExpandedKey(key)
    {
      rk := new Byte[176];
      new;
      for i := 0 to 16
        invariant rk[..i] == key[..i]
      {
        rk[i] := key[i];
      }
      FirstWords(rk[..], key);
      for i := 4 to 44
        invariant WordsReady(rk[..], key, i)
      {
        ScheduleWord(key, i);
      }
      AllWords(rk[..], key);
    }

    // One turn of the key schedule loop.
    method ScheduleWord(key: Block, i: nat)
      requires Valid() && 4 <= i < 44
      requires WordsReady(rk[..], key, i)
      modifies rk
      ensures WordsReady(rk[..], key, i + 1)
    {
      hide Xor, Sbox, Rcon, KeyWord;
      ghost var was := rk[..];
      var t0, t1, t2, t3 := rk[4 * i - 4], rk[4 * i - 3], rk[4 * i - 2], rk[4 * i - 1];
      ghost var before := [t0, t1, t2, t3];
      if i % 4 == 0 {
        t0, t1, t2, t3 := Xor(Sbox(t1), Rcon(i / 4 - 1)), Sbox(t2), Sbox(t3), Sbox(t0);
      }
      var w0, w1, w2, w3 := rk[4 * i - 16], rk[4 * i - 15], rk[4 * i - 14], rk[4 * i - 13];
      rk[4 * i], rk[4 * i + 1], rk[4 * i + 2], rk[4 * i + 3] := Xor(w0, t0), Xor(w1, t1), Xor(w2, t2), Xor(w3, t3);
      assert NextWord(i, before, [w0, w1, w2, w3]) == [Xor(w0, t0), Xor(w1, t1), Xor(w2, t2), Xor(w3, t3)];
      OneMoreWord(was, rk[..], key, i);
    }

    // aes128_decrypt_block
    method DecryptBlock(input: array<Byte>, output: array<Byte>)
      requires Valid() && input.Length == 16 && output.Length == 16
      requires output != rk
      modifies output
      ensures output[..] == InvCipher(rk[..], old(input[..]))
    {
      hide InvSubBytes, InvShiftRows, InvMixColumns, AddRoundKey;
      ghost var coded := input[..];
      var s := new Byte[16];
      CopyBlock(input, s);
      AddRoundKeyInPlace(s, rk, 160);
      for round := 10 downto 1
        invariant s[..] == DecState(rk[..], coded, round - 1)
      {
        InvShiftRowsInPlace(s);
        InvSubBytesInPlace(s);
        AddRoundKeyInPlace(s, rk, round * 16);
        InvMixColumnsInPlace(s);
      }
      InvShiftRowsInPlace(s);
      InvSubBytesInPlace(s);
      AddRoundKeyInPlace(s, rk, 0);
      CopyBlock(s, output);
    }

    // aes128_cbc_decrypt. The two buffers may be one and the same: each coded block is copied out
    // before its place is overwritten. 0 on success, -1 for a length that is not whole blocks.
    method CbcDecryptBuffer(iv: array<Byte>, input: array<Byte>, len: nat, output: array<Byte>) returns (rc: int)
      requires Valid() && iv.Length == 16 && output != rk && output != iv
      requires len <= input.Length && len <= output.Length
      modifies output
      ensures rc == if len > 0 && Whole(input[..len]) then 0 else -1
      ensures rc == 0 ==> output[..len] == CbcDecrypt(rk[..], iv[..], old(input[..len]))
      ensures rc == 0 ==> output[len..] == old(output[len..])
      ensures rc != 0 ==> output[..] == old(output[..])
    {
      hide InvCipher, AddRoundKey, CbcDecrypt;
      if len == 0 || len % 16 != 0 {
        return -1;
      }
      ghost var coded := input[..len];
      var prev, cur, plain := new Byte[16], new Byte[16], new Byte[16];
      CopyBlock(iv, prev);
      var off := 0;
      ghost var left := len / 16;
      while off < len
        invariant 0 <= off <= len && len == off + 16 * left
        invariant input[off..len] == coded[off..]
        invariant output[len..] == old(output[len..])
        invariant Whole(coded[off..])
        invariant CbcDecrypt(rk[..], iv[..], coded) == output[..off] + CbcDecrypt(rk[..], prev[..], coded[off..])
      {
        ghost var block: Block, more, done, chained := coded[off..off + 16], coded[off + 16..], output[..off], prev[..];
        Sixteens(left - 1);
        NextBlock(input[..], coded, off);
        CbcUnfolds(rk[..], chained, block, more);
        CbcBlock(prev, cur, plain, input, off, len, output);
        ghost var sum := AddRoundKey(InvCipher(rk[..], block), chained);
        Regrouped(done, sum, CbcDecrypt(rk[..], block, more));
        off, left := off + 16, left - 1;
      }
      rc := 0;
    }

    // One turn of the CBC loop.
    method CbcBlock(prev: array<Byte>, cur: array<Byte>, plain: array<Byte>,
                    input: array<Byte>, off: nat, len: nat, output: array<Byte>)
      requires Valid() && prev.Length == 16 && cur.Length == 16 && plain.Length == 16
      requires off + 16 <= len <= input.Length && len <= output.Length
      requires prev != cur && prev != plain && cur != plain
      requires rk !in {prev, cur, plain, output} && input !in {prev, cur, plain} && output !in {prev, cur, plain}
      modifies prev, cur, plain, output
      ensures prev[..] == old(input[off..off + 16])
      ensures output[..off + 16] == old(output[..off]) + AddRoundKey(InvCipher(rk[..], old(input[off..off + 16])), old(prev[..]))
      ensures output[len..] == old(output[len..])
      ensures input[off + 16..len] == old(input[off + 16..len])
    {
      hide InvCipher, AddRoundKey;
      ghost var keys, block, chained, source := rk[..], input[off..off + 16], prev[..], input[..];
      for i := 0 to 16
        modifies cur
        invariant cur[..i] == input[off..off + i]
      {
        cur[i] := input[off + i];
      }
      assert cur[..] == block;
      DecryptBlock(cur, plain);
      ghost var decoded := plain[..];
      assert rk[..] == keys && decoded == InvCipher(keys, block);
      ghost var before := output[..];
      for i := 0 to 16
        modifies output
        invariant output[..off] == before[..off] && output[off + 16..] == before[off + 16..]
        invariant forall k | 0 <= k < i :: output[off + k] == Xor(decoded[k], chained[k])
      {
        output[off + i] := Xor(plain[i], prev[i]);
      }
      ghost var sum := output[off..off + 16];
      XoredBlock(sum, decoded, chained);
      CopyBlock(cur, prev);
      assert rk[..] == keys && output[off..off + 16] == sum;
      StillSame(output[..], before, off + 16, len);
      assert input == output ==> before == source;
      assert input != output ==> input[..] == source;
      assert output[..off + 16] == output[..off] + sum;
    }
  }
}
