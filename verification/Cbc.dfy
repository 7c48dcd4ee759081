/** Cipher block chaining (NIST SP 800-38A, section 6.2) over AES-128, and the padding of RFC 5652,
    section 6.3. The encrypting halves are the specification of what a server sends; the repository
    contains the decrypting halves only. */
module Cbc {
  import opened AesTables
  import opened AesCipher

  predicate Whole(b: seq<Byte>) {
    |b| % 16 == 0
  }

  function CbcEncrypt(rk: RoundKeys, iv: Block, plain: seq<Byte>): (c: seq<Byte>)
    requires Whole(plain)
    ensures |c| == |plain|
    decreases |plain|
  {
    hide Cipher, AddRoundKey;
    if plain == [] then []
    else
      var first := Cipher(rk, AddRoundKey(plain[..16], iv));
      first + CbcEncrypt(rk, first, plain[16..])
  }

  function CbcDecrypt(rk: RoundKeys, iv: Block, coded: seq<Byte>): (p: seq<Byte>)
    requires Whole(coded)
    ensures |p| == |coded|
    decreases |coded|
  {
    hide InvCipher, AddRoundKey;
    if coded == [] then []
    else AddRoundKey(InvCipher(rk, coded[..16]), iv) + CbcDecrypt(rk, coded[..16], coded[16..])
  }

  lemma CbcUnfolds(rk: RoundKeys, iv: Block, block: Block, more: seq<Byte>)
    requires Whole(more)
    ensures Whole(block + more)
    ensures CbcDecrypt(rk, iv, block + more) == AddRoundKey(InvCipher(rk, block), iv) + CbcDecrypt(rk, block, more)
  {
    hide InvCipher, AddRoundKey;
    assert (block + more)[..16] == block && (block + more)[16..] == more;
  }

  lemma {:induction false} CbcDecryptUndoesEncrypt(rk: RoundKeys, iv: Block, plain: seq<Byte>)
    requires Whole(plain)
    ensures CbcDecrypt(rk, iv, CbcEncrypt(rk, iv, plain)) == plain
    decreases |plain|
  {
    hide AddRoundKey, Cipher, InvCipher;
    if plain != [] {
      var mixed := AddRoundKey(plain[..16], iv);
      var first := Cipher(rk, mixed);
      var coded := CbcEncrypt(rk, iv, plain);
      assert coded[..16] == first && coded[16..] == CbcEncrypt(rk, first, plain[16..]);
      InvCipherUndoesCipher(rk, mixed);
      AddRoundKeyCancels(plain[..16], iv);
      CbcDecryptUndoesEncrypt(rk, first, plain[16..]);
    }
  }

  lemma {:induction false} CbcEncryptUndoesDecrypt(rk: RoundKeys, iv: Block, coded: seq<Byte>)
    requires Whole(coded)
    ensures CbcEncrypt(rk, iv, CbcDecrypt(rk, iv, coded)) == coded
    decreases |coded|
  {
    hide AddRoundKey, Cipher, InvCipher;
    if coded != [] {
      var first := AddRoundKey(InvCipher(rk, coded[..16]), iv);
      var plain := CbcDecrypt(rk, iv, coded);
      assert plain[..16] == first && plain[16..] == CbcDecrypt(rk, coded[..16], coded[16..]);
      AddRoundKeyCancels(InvCipher(rk, coded[..16]), iv);
      CipherUndoesInvCipher(rk, coded[..16]);
      CbcEncryptUndoesDecrypt(rk, coded[..16], coded[16..]);
    }
  }

  // ---- padding ------------------------------------------------------------------------------

  /** RFC 5652, section 6.3: fill up to the next multiple of sixteen with bytes that hold the
      number of bytes added; a whole number of blocks gains one more. */
  function Pad(payload: seq<Byte>): (b: seq<Byte>)
    ensures |payload| < |b| <= |payload| + 16 && Whole(b)
  {
    var n := 16 - |payload| % 16;
    payload + seq(n, _ => n as Byte)
  }

  predicate EndsWith(b: seq<Byte>, n: nat, value: Byte) {
    n <= |b| && forall i | |b| - n <= i < |b| :: b[i] == value
  }

  /** The length aes128_pkcs7_len reports, or -1 for a padding it refuses. */
  function UnpaddedLength(b: seq<Byte>): (n: int)
    ensures -1 <= n <= |b|
  {
    if |b| == 0 then -1
    else
      var pad := b[|b| - 1];
      if pad == 0 || pad > 16 || !EndsWith(b, pad as nat, pad) then -1
      else |b| - pad as nat
  }

  lemma PadByte(b: Byte)
    requires b != 0 && b <= 16
    ensures 1 <= b as nat <= 16 && (b as nat) as Byte == b
  {}

  lemma PadCount(total: nat, n: nat)
    requires total % 16 == 0 && n < total <= n + 16
    ensures 16 - n % 16 == total - n
  {}

  lemma AcceptedPaddingIsPadding(b: seq<Byte>, n: nat)
    requires Whole(b) && UnpaddedLength(b) == n
    ensures b == Pad(b[..n])
  {
    var pad := b[|b| - 1];
    PadByte(pad);
    PadCount(|b|, n);
    var tail := seq(|b| - n, _ => (|b| - n) as Byte);
    assert b[n..] == tail;
    assert b == b[..n] + tail;
  }

  /** On whole blocks, a length is reported exactly when the bytes are the padding of that many. */
  lemma UnpaddedIffPadded(b: seq<Byte>, n: nat)
    requires Whole(b)
    ensures UnpaddedLength(b) == n <==> n <= |b| && b == Pad(b[..n])
  {
    hide UnpaddedLength, Pad;
    if n <= |b| && b == Pad(b[..n]) {
      PadLength(b[..n]);
    }
    if UnpaddedLength(b) == n {
      AcceptedPaddingIsPadding(b, n);
    }
  }

  lemma PadLength(payload: seq<Byte>)
    ensures UnpaddedLength(Pad(payload)) == |payload|
  {
    var b := Pad(payload);
    var n := 16 - |payload| % 16;
    assert b[|b| - 1] == n as Byte;
    assert (n as Byte) as nat == n;
    assert EndsWith(b, n, n as Byte);
  }
}
