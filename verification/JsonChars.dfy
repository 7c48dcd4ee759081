/** What the escapes of a JSON string stand for in src/json.c, by value: section 7 of RFC 8259, the UTF-16
    pairs it relies on, and section 3 of RFC 3629 for the bytes that are written. */
module JsonChars {
  import opened Prelude
  import opened JsonText

  /** White space is the four bytes of section 2. */
  lemma WhiteSpaceIs(c: char)
    ensures IsWs(c) <==> c as int == 0x20 || c as int == 0x09 || c as int == 0x0A || c as int == 0x0D
  {}

  /** A digit of either case has the value of its place in the row of all digits. */
  lemma HexDigitIs(c: char, v: nat)
    requires v < 16
    ensures HexVal(c) == Some(v) <==> c == "0123456789abcdef"[v] || c == "0123456789ABCDEF"[v]
  {
    var lower, upper := "0123456789abcdef", "0123456789ABCDEF";
    assert lower[v] as int == if v < 10 then 48 + v else 87 + v;
    assert upper[v] as int == if v < 10 then 48 + v else 55 + v;
  }

  /** The four digits of \u are those of a number, the highest first. */
  lemma FourDigitsRead(s: string, n: nat)
    requires |s| >= 4 && n < 0x1_0000
    requires HexVal(s[0]) == Some(n / 4096) && HexVal(s[1]) == Some(n / 256 % 16)
    requires HexVal(s[2]) == Some(n / 16 % 16) && HexVal(s[3]) == Some(n % 16)
    ensures FourHex(s) && Hex4(s) == n
  {
    hide HexVal, Hex4;
    Hex4Is(s);
    InSixteens(n);
  }

  lemma Hex4Is(s: string)
    requires |s| >= 4
    ensures Hex4(s) == Nibble(s[0]) * 0x1000 + Nibble(s[1]) * 0x100 + Nibble(s[2]) * 0x10 + Nibble(s[3])
  {
    hide Nibble;
  }

  lemma InSixteens(n: nat)
    ensures n == n / 4096 * 4096 + n / 256 % 16 * 256 + n / 16 % 16 * 16 + n % 16
  {
    assert n / 256 == n / 4096 * 16 + n / 256 % 16;
    assert n / 16 == n / 256 * 16 + n / 16 % 16;
  }

  /** The eight short escapes are those of section 7, and there is no other. */
  lemma ShortEscapes(c: char)
    ensures Unescaped('"') == Some('"') && Unescaped('\\') == Some('\\') && Unescaped('/') == Some('/')
    ensures Unescaped('b') == Some(0x08 as char) && Unescaped('f') == Some(0x0C as char)
    ensures Unescaped('n') == Some(0x0A as char) && Unescaped('r') == Some(0x0D as char) && Unescaped('t') == Some(0x09 as char)
    ensures Unescaped(c).Some? <==> c in "\"\\/bfnrt"
  {}

  /** A pair stands for the code point above the basic plane whose bits it holds, ten in each half. */
  lemma PairReadsBack(cp: nat)
    requires 0x1_0000 <= cp < 0x11_0000
    ensures var high, low := 0xD800 + (cp - 0x1_0000) / 1024, 0xDC00 + (cp - 0x1_0000) % 1024;
      High(high) && Low(low) && Paired(high, low) == cp
  {}

  predicate Continues(c: char) {
    0x80 <= c as int < 0xC0
  }

  // Decoding UTF-8: the code point of one character that is written in the shortest form.
  function Utf8Value(r: string): Option<nat> {
    match |r|
    case 1 => if r[0] as int < 0x80 then Some(r[0] as int) else None
    case 2 =>
      var n := (r[0] as int - 0xC0) * 64 + (r[1] as int - 0x80);
      if 0xC0 <= r[0] as int < 0xE0 && Continues(r[1]) && n >= 0x80 then Some(n) else None
    case 3 =>
      var n := (r[0] as int - 0xE0) * 4096 + (r[1] as int - 0x80) * 64 + (r[2] as int - 0x80);
      if 0xE0 <= r[0] as int < 0xF0 && Continues(r[1]) && Continues(r[2]) && n >= 0x800 then Some(n) else None
    case 4 =>
      var n := (r[0] as int - 0xF0) * 0x4_0000 + (r[1] as int - 0x80) * 4096 + (r[2] as int - 0x80) * 64 + (r[3] as int - 0x80);
      if 0xF0 <= r[0] as int < 0xF8 && Continues(r[1]) && Continues(r[2]) && Continues(r[3]) && n >= 0x1_0000 then Some(n)
      else None
    case _ => None
  }

  /** utf8_put writes the UTF-8 of its code point: any code point is read back. */
  lemma Utf8ReadsBack(cp: nat)
    requires cp < 0x11_0000
    ensures Utf8Value(Utf8(cp)) == Some(cp)
  {
    if cp < 0x80 {
    } else if cp < 0x800 {
      assert cp == cp / 64 * 64 + cp % 64;
    } else if cp < 0x1_0000 {
      Sixes(cp);
    } else {
      Sixes(cp);
      assert cp / 4096 == cp / 0x4_0000 * 64 + cp / 4096 % 64;
    }
  }

  lemma Sixes(cp: nat)
    ensures cp == cp / 4096 * 4096 + cp / 64 % 64 * 64 + cp % 64
    ensures cp / 0x4_0000 == cp / 4096 / 64
  {
    assert cp / 64 == cp / 4096 * 64 + cp / 64 % 64;
  }

  /** Half a pair, and a NUL, are replaced by U+FFFD. */
  lemma ReplacementIs()
    ensures Meant(Lone("D800")) == [0xEF as char, 0xBF as char, 0xBD as char] == Meant(Lone("0000"))
  {
    FourDigitsRead("D800", 0xD800);
    FourDigitsRead("0000", 0);
  }
}
