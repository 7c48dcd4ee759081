/** src/hls_crypt.c: decrypting one segment in place, and the IV a segment gets from its number. */
module HlsCrypt {
  import opened AesTables
  import opened AesCipher
  import opened Cbc
  import opened Aes128

  datatype Outcome = Payload(bytes: seq<Byte>) | Empty | Ragged | BadPadding

  /** What a segment of bytes decrypts to, as a value. */
  function Decrypted(key: Block, iv: Block, coded: seq<Byte>): Outcome {
    if coded == [] then Empty
    else if !Whole(coded) then Ragged
    else
      var plain := CbcDecrypt(ExpandedKey(key), iv, coded);
      var n := UnpaddedLength(plain);
      if n < 0 then BadPadding else Payload(plain[..n])
  }

  /** What a server sends for a payload: padded, then chained and enciphered. */
  function Encrypted(key: Block, iv: Block, payload: seq<Byte>): seq<Byte> {
    CbcEncrypt(ExpandedKey(key), iv, Pad(payload))
  }

  /** A segment decrypts to a payload exactly when it is the encryption of that payload: nothing
      encrypted correctly is refused or altered, and nothing else is accepted. */
  lemma DecryptedIffEncrypted(key: Block, iv: Block, coded: seq<Byte>, payload: seq<Byte>)
    ensures Decrypted(key, iv, coded) == Payload(payload) <==> coded == Encrypted(key, iv, payload)
  {
    hide ExpandedKey, CbcEncrypt, CbcDecrypt, UnpaddedLength, Pad;
    var rk := ExpandedKey(key);
    if coded == Encrypted(key, iv, payload) {
      CbcDecryptUndoesEncrypt(rk, iv, Pad(payload));
      PadLength(payload);
      PadPrefix(payload);
    }
    if Decrypted(key, iv, coded) == Payload(payload) {
      var plain := CbcDecrypt(rk, iv, coded);
      UnpaddedIffPadded(plain, |payload|);
      CbcEncryptUndoesDecrypt(rk, iv, coded);
    }
  }

  lemma PadPrefix(payload: seq<Byte>)
    ensures Pad(payload)[..|payload|] == payload
  {}

  // aes128_pkcs7_len
  method Pkcs7Length(buf: array<Byte>, len: nat) returns (n: int)
    requires len <= buf.Length
    ensures n == UnpaddedLength(buf[..len])
  {
    if len == 0 {
      return -1;
    }
    var pad := buf[len - 1];
    if pad == 0 || pad > 16 {
      return -1;
    }
    PadByte(pad);
    var count := pad as nat;
    if count > len {
      return -1;
    }
    for i := 0 to count
      invariant forall k | len - i <= k < len :: buf[k] == pad
    {
      if buf[len - 1 - i] != pad {
        assert buf[..len][len - 1 - i] != pad;
        return -1;
      }
    }
    n := len - count;
  }

  // hls_decrypt_segment: on success the payload stands at the front of the buffer and newLen is
  // its length; on failure the length is kept.
  method DecryptSegment(key: Block, iv: array<Byte>, buf: array<Byte>, len: nat) returns (rc: int, newLen: nat)
    requires iv.Length == 16 && buf != iv && len <= buf.Length
    modifies buf
    ensures newLen <= buf.Length && buf[len..] == old(buf[len..])
    ensures rc == 0 ==> Decrypted(key, iv[..], old(buf[..len])) == Payload(buf[..newLen])
    ensures rc != 0 ==> rc == -1 && newLen == len && !Decrypted(key, iv[..], old(buf[..len])).Payload?
    ensures len == 0 || len % 16 != 0 ==> buf[..] == old(buf[..])
  {
    hide ExpandedKey, CbcDecrypt, UnpaddedLength;
    newLen := len;
    if len == 0 || len % 16 != 0 {
      return -1, len;
    }
    var a := new Aes128(key);
    rc := a.CbcDecryptBuffer(iv, buf, len, buf);
    var payload := Pkcs7Length(buf, len);
    if payload < 0 {
      return -1, len;
    }
    assert buf[..payload] == buf[..len][..payload];
    newLen := payload;
  }

  // ---- the IV of a segment with none of its own ------------------------------------------------

  const TWO64 := 0x1_0000_0000_0000_0000

  /** u shifted right by n bytes. */
  function Shifted(u: nat, n: nat): nat {
    if n == 0 then u else Shifted(u, n - 1) / 256
  }

  /** The sixteen base-256 digits, most significant first, of a number taken modulo 2^64. A negative
      number enters as its two's complement. */
  function IvDigits(n: int): (d: seq<nat>)
    ensures |d| == 16 && forall i | 0 <= i < 16 :: d[i] < 256
  {
    seq(16, i requires 0 <= i < 16 => if i < 8 then 0 else Shifted(n % TWO64, 15 - i) % 256)
  }

  /** The IV of RFC 8216, section 5.2: the sequence number, big-endian, zero-padded to sixteen bytes. */
  function SequenceIv(n: int): Block {
    seq(16, i requires 0 <= i < 16 => if i < 8 then 0 else IvDigits(n)[i] as Byte)
  }

  function BigEndian(d: seq<nat>): nat {
    if d == [] then 0 else 256 * BigEndian(d[..|d| - 1]) + d[|d| - 1]
  }

  lemma ShiftedOut(u: nat)
    requires u < TWO64
    ensures Shifted(u, 8) == 0
  {
    assert Shifted(u, 1) < 0x100_0000_0000_0000;
    assert Shifted(u, 2) < 0x1_0000_0000_0000;
    assert Shifted(u, 3) < 0x100_0000_0000;
    assert Shifted(u, 4) < 0x1_0000_0000;
    assert Shifted(u, 5) < 0x100_0000;
    assert Shifted(u, 6) < 0x1_0000;
    assert Shifted(u, 7) < 0x100;
  }

  lemma {:induction false} IvDigitsPrefix(n: int, count: nat)
    requires count <= 16
    ensures BigEndian(IvDigits(n)[..count]) == if count <= 8 then 0 else Shifted(n % TWO64, 16 - count)
  {
    var d, u := IvDigits(n), n % TWO64;
    if count > 0 {
      IvDigitsPrefix(n, count - 1);
      assert d[..count][..count - 1] == d[..count - 1];
      if count > 8 {
        ShiftedOut(u);
        assert Shifted(u, 17 - count) == Shifted(u, 16 - count) / 256;
      }
    }
  }

  /** The digits of the IV spell out the sequence number, modulo 2^64. */
  lemma IvDigitsValue(n: int)
    ensures BigEndian(IvDigits(n)) == n % TWO64
  {
    IvDigitsPrefix(n, 16);
    assert IvDigits(n)[..16] == IvDigits(n);
  }

  // hls_iv_from_sequence: the loop walks back from the last byte, shifting the number as it goes.
  method IvFromSequence(n: int, iv: array<Byte>)
    requires -TWO64 / 2 <= n < TWO64 / 2 && iv.Length == 16
    modifies iv
    ensures iv[..] == SequenceIv(n)
  {
    for i := 0 to 16
      invariant forall k | 0 <= k < i :: iv[k] == 0
    {
      iv[i] := 0;
    }
    var s: nat := n % TWO64;
    for i := 16 downto 8
      invariant s == Shifted(n % TWO64, 16 - i)
      invariant forall k | 0 <= k < 8 :: iv[k] == 0
      invariant forall k | i <= k < 16 :: iv[k] == SequenceIv(n)[k]
    {
      assert IvDigits(n)[i] == s % 256;
      iv[i] := (s % 256) as Byte;
      s := s / 256;
    }
  }

  // seq_iv of src/m3u8.c: the same bytes, each shifted down afresh from the whole number.
  method SequenceIvByShifts(n: int, iv: array<Byte>)
    requires -TWO64 / 2 <= n < TWO64 / 2 && iv.Length == 16
    modifies iv
    ensures iv[..] == SequenceIv(n)
  {
    for i := 0 to 16
      invariant forall k | 0 <= k < i :: iv[k] == 0
    {
      iv[i] := 0;
    }
    for i := 0 to 8
      invariant forall k | 0 <= k < 8 :: iv[k] == 0
      invariant forall k | 16 - i <= k < 16 :: iv[k] == SequenceIv(n)[k]
    {
      assert IvDigits(n)[15 - i] == Shifted(n % TWO64, i) % 256;
      iv[15 - i] := (Shifted(n % TWO64, i) % 256) as Byte;
    }
  }
}
