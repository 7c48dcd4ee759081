/** src/json.c: the pieces of a JSON text (RFC 8259): white space, strings and numbers. A char stands for
    a byte of the document. */
module JsonText {
  import opened Prelude

  // ---- white space ------------------------------------------------------------------------------------

  predicate IsWs(c: char) {
    c == ' ' || c == '\t' || c == '\n' || c == '\r'
  }

  predicate AllWs(s: string) {
    forall c | c in s :: IsWs(c)
  }

  function SkipWs(s: string): (r: string)
    ensures |r| <= |s| && (r != "" ==> !IsWs(r[0]))
  {
    if s != "" && IsWs(s[0]) then SkipWs(s[1..]) else s
  }

  lemma {:induction false} SkipsWs(ws: string, rest: string)
    requires AllWs(ws)
    ensures SkipWs(ws + rest) == SkipWs(rest)
  {
    if ws == "" {
      assert ws + rest == rest;
    } else {
      assert (ws + rest)[1..] == ws[1..] + rest;
      SkipsWs(ws[1..], rest);
    }
  }

  // ---- strings (section 7) ------------------------------------------------------------------------------

  predicate FourHex(s: string) {
    |s| >= 4 && forall k | 0 <= k < 4 :: HexVal(s[k]).Some?
  }

  function Nibble(c: char): (r: nat)
    ensures r < 16
  {
    if HexVal(c).Some? then HexVal(c).value else 0
  }

  function Hex4(s: string): (r: nat)
    requires |s| >= 4
    ensures r < 0x1_0000
  {
    Nibble(s[0]) * 0x1000 + Nibble(s[1]) * 0x100 + Nibble(s[2]) * 0x10 + Nibble(s[3])
  }

  // What a one-character escape stands for.
  function Unescaped(c: char): Option<char> {
    match c
    case '"' => Some('"')
    case '\\' => Some('\\')
    case '/' => Some('/')
    case 'b' => Some(8 as char)
    case 'f' => Some(12 as char)
    case 'n' => Some('\n')
    case 'r' => Some('\r')
    case 't' => Some('\t')
    case _ => None
  }

  function Shift(n: nat, r: Option<nat>): Option<nat> {
    if r.Some? then Some(n + r.value) else None
  }

  // scan_string, after the opening quote: where the closing one is.
  function ScanString(s: string): (r: Option<nat>)
    ensures r.Some? ==> r.value < |s| && s[r.value] == '"'
    decreases |s|
  {
    if s == "" then None
    else if s[0] == '"' then Some(0)
    else if s[0] < ' ' then None
    else if s[0] != '\\' then Shift(1, ScanString(s[1..]))
    else if |s| < 2 then None
    else if Unescaped(s[1]).Some? then Shift(2, ScanString(s[2..]))
    else if s[1] == 'u' && FourHex(s[2..]) then Shift(6, ScanString(s[6..]))
    else None
  }

  // utf8_put
  function Utf8(cp: nat): (r: string)
    requires cp < 0x11_0000
    ensures 1 <= |r| <= 4 && (cp < 0x1_0000 ==> |r| <= 3)
  {
    if cp < 0x80 then [cp as char]
    else if cp < 0x800 then [(0xC0 + cp / 0x40) as char, (0x80 + cp % 0x40) as char]
    else if cp < 0x1_0000 then
      [(0xE0 + cp / 0x1000) as char, (0x80 + cp / 0x40 % 0x40) as char, (0x80 + cp % 0x40) as char]
    else
      [(0xF0 + cp / 0x4_0000) as char, (0x80 + cp / 0x1000 % 0x40) as char,
       (0x80 + cp / 0x40 % 0x40) as char, (0x80 + cp % 0x40) as char]
  }

  const REPLACEMENT := 0xFFFD

  predicate High(cp: nat) { 0xD800 <= cp <= 0xDBFF }

  predicate Low(cp: nat) { 0xDC00 <= cp <= 0xDFFF }

  function Paired(hi: nat, lo: nat): (r: nat)
    requires High(hi) && Low(lo)
    ensures 0x1_0000 <= r < 0x11_0000
  {
    0x1_0000 + (hi - 0xD800) * 0x400 + (lo - 0xDC00)
  }

  // A \uXXXX escape with what follows it: the code point it stands for, and how much of the text that is.
  function CodePoint(s: string): (r: (nat, nat))
    requires |s| >= 6
    ensures r.0 < 0x11_0000 && (r.1 == 6 || r.1 == 12) && r.1 <= |s| && (r.1 == 6 ==> r.0 < 0x1_0000)
  {
    var cp := Hex4(s[2..]);
    if High(cp) then
      if |s| >= 12 && s[6] == '\\' && s[7] == 'u' && Low(Hex4(s[8..])) then (Paired(cp, Hex4(s[8..])), 12)
      else (REPLACEMENT, 6)
    else if cp == 0 || Low(cp) then (REPLACEMENT, 6)
    else (cp, 6)
  }

  /** decode_string, on a span scan_string has passed: it never writes more than len bytes and its NUL. */
  function Decode(s: string): (r: string)
    ensures |r| <= |s|
    decreases |s|
  {
    if s == "" then ""
    else if s[0] != '\\' then [s[0]] + Decode(s[1..])
    else if |s| >= 2 && Unescaped(s[1]).Some? then [Unescaped(s[1]).value] + Decode(s[2..])
    else if |s| >= 6 then Utf8(CodePoint(s).0) + Decode(s[CodePoint(s).1..])
    else ""
  }

  // How a character of a string can be written; Lone escapes NUL or half of a surrogate pair.
  datatype Ch = Raw(c: char) | Short(letter: char) | Unicode(digits: string) | Pair(high: string, low: string)
              | Lone(digits: string)

  predicate ChOk(c: Ch) {
    match c
    case Raw(x) => x >= ' ' && x != '"' && x != '\\'
    case Short(letter) => Unescaped(letter).Some?
    case Unicode(d) => |d| == 4 && FourHex(d) && Hex4(d) != 0 && !High(Hex4(d)) && !Low(Hex4(d))
    case Pair(h, l) => |h| == 4 && |l| == 4 && FourHex(h) && FourHex(l) && High(Hex4(h)) && Low(Hex4(l))
    case Lone(d) => |d| == 4 && FourHex(d) && (Hex4(d) == 0 || High(Hex4(d)) || Low(Hex4(d)))
  }

  function Written(c: Ch): string {
    match c
    case Raw(x) => [x]
    case Short(letter) => ['\\', letter]
    case Unicode(d) => "\\u" + d
    case Pair(h, l) => "\\u" + h + "\\u" + l
    case Lone(d) => "\\u" + d
  }

  function Meant(c: Ch): string
    requires ChOk(c)
  {
    match c
    case Raw(x) => [x]
    case Short(letter) => [Unescaped(letter).value]
    case Unicode(d) => Utf8(Hex4(d))
    case Pair(h, l) => Utf8(Paired(Hex4(h), Hex4(l)))
    case Lone(_) => Utf8(REPLACEMENT)
  }

  // The two halves of a pair next to each other are the pair.
  predicate Halves(c: Ch, d: Ch) {
    && c.Lone? && |c.digits| == 4 && High(Hex4(c.digits))
    && d.Lone? && |d.digits| == 4 && Low(Hex4(d.digits))
  }

  predicate ChsOk(cs: seq<Ch>) {
    cs == [] || (ChOk(cs[0]) && (|cs| > 1 ==> !Halves(cs[0], cs[1])) && ChsOk(cs[1..]))
  }

  function AllWritten(cs: seq<Ch>): string {
    if cs == [] then "" else Written(cs[0]) + AllWritten(cs[1..])
  }

  function AllMeant(cs: seq<Ch>): string
    requires ChsOk(cs)
  {
    if cs == [] then "" else Meant(cs[0]) + AllMeant(cs[1..])
  }

  // A \uXXXX escape, whatever follows it.
  lemma UnicodeScans(d: string, rest: string)
    requires |d| == 4 && FourHex(d)
    ensures ScanString("\\u" + d + rest) == Shift(6, ScanString(rest))
  {
    var s := "\\u" + d + rest;
    assert s[2..] == d + rest && s[6..] == rest;
    assert FourHex(s[2..]);
    hide HexVal, Hex4;
  }

  // One written character, whatever follows it.
  lemma WrittenScans(c: Ch, rest: string)
    requires ChOk(c)
    ensures ScanString(Written(c) + rest) == Shift(|Written(c)|, ScanString(rest))
  {
    match c
    case Raw(x) =>
      assert ([x] + rest)[1..] == rest;
    case Short(letter) =>
      assert (['\\', letter] + rest)[2..] == rest;
    case Unicode(d) => UnicodeScans(d, rest);
    case Lone(d) => UnicodeScans(d, rest);
    case Pair(h, l) => PairScans(h, l, rest);
  }

  lemma PairScans(h: string, l: string, rest: string)
    requires |h| == 4 && |l| == 4 && FourHex(h) && FourHex(l)
    ensures ScanString("\\u" + h + "\\u" + l + rest) == Shift(12, ScanString(rest))
  {
    hide ScanString, FourHex;
    UnicodeScans(h, "\\u" + l + rest);
    UnicodeScans(l, rest);
    assert "\\u" + h + ("\\u" + l + rest) == "\\u" + h + "\\u" + l + rest;
  }

  lemma PairPieces(h: string, l: string, rest: string)
    requires |h| == 4 && |l| == 4
    ensures var s := "\\u" + h + "\\u" + l + rest;
      && |s| == 12 + |rest| && s[0] == '\\' && s[1] == 'u' && s[6] == '\\' && s[7] == 'u' && s[12..] == rest
      && Hex4(s[2..]) == Hex4(h) && Hex4(s[8..]) == Hex4(l)
  {
    var s := "\\u" + h + "\\u" + l + rest;
    assert s[2..] == h + ("\\u" + l + rest) && s[8..] == l + rest;
  }

  lemma PairDecodes(h: string, l: string, rest: string)
    requires ChOk(Pair(h, l))
    ensures Decode("\\u" + h + "\\u" + l + rest) == Utf8(Paired(Hex4(h), Hex4(l))) + Decode(rest)
  {
    hide Hex4, Utf8, FourHex, Paired;
    PairPieces(h, l, rest);
  }

  lemma UnicodeDecodes(d: string, rest: string)
    requires ChOk(Unicode(d))
    ensures Decode("\\u" + d + rest) == Utf8(Hex4(d)) + Decode(rest)
  {
    var s := "\\u" + d + rest;
    assert s[2..] == d + rest && s[6..] == rest;
    assert Hex4(s[2..]) == Hex4(d);
    hide Hex4, Utf8, FourHex;
  }

  // The second half of a pair.
  predicate StartsLow(s: string) {
    |s| >= 6 && s[0] == '\\' && s[1] == 'u' && Low(Hex4(s[2..]))
  }

  lemma LoneDecodes(d: string, rest: string)
    requires ChOk(Lone(d)) && (High(Hex4(d)) ==> !StartsLow(rest))
    ensures Decode("\\u" + d + rest) == Utf8(REPLACEMENT) + Decode(rest)
  {
    var s := "\\u" + d + rest;
    assert s[2..] == d + rest && s[6..] == rest;
    assert Hex4(s[2..]) == Hex4(d);
    if |s| >= 12 { assert s[8..] == rest[2..]; }
    hide Hex4, Utf8, FourHex;
  }

  // What a string begins with, if not with the second half of a pair.
  lemma NoLow(cs: seq<Ch>)
    requires ChsOk(cs) && (cs != [] ==> !cs[0].Lone? || !Low(Hex4(cs[0].digits)))
    ensures !StartsLow(AllWritten(cs))
  {
    if cs != [] {
      Unfolds(cs);
      OneNotLow(cs[0], AllWritten(cs[1..]));
      hide AllWritten, StartsLow, Written;
    }
  }

  lemma OneNotLow(c: Ch, rest: string)
    requires ChOk(c) && (!c.Lone? || !Low(Hex4(c.digits)))
    ensures !StartsLow(Written(c) + rest)
  {
    hide Hex4;
    match c
    case Unicode(d) => HexFront(d, rest);
    case Lone(d) => HexFront(d, rest);
    case Pair(h, l) =>
      assert Written(c) + rest == "\\u" + h + ("\\u" + l + rest);
      HexFront(h, "\\u" + l + rest);
    case _ =>
  }

  lemma Unfolds(cs: seq<Ch>)
    requires cs != []
    ensures AllWritten(cs) == Written(cs[0]) + AllWritten(cs[1..])
  {}

  lemma HexFront(d: string, rest: string)
    requires |d| == 4
    ensures var s := "\\u" + d + rest; Hex4(s[2..]) == Hex4(d)
  {
    var s := "\\u" + d + rest;
    assert s[2..] == d + rest;
  }

  lemma WrittenDecodes(c: Ch, rest: string)
    requires ChOk(c) && (c.Lone? && High(Hex4(c.digits)) ==> !StartsLow(rest))
    ensures Decode(Written(c) + rest) == Meant(c) + Decode(rest)
  {
    match c
    case Raw(x) =>
      assert ([x] + rest)[1..] == rest;
    case Short(letter) =>
      assert (['\\', letter] + rest)[2..] == rest;
    case Unicode(d) => UnicodeDecodes(d, rest);
    case Pair(h, l) => PairDecodes(h, l, rest);
    case Lone(d) => LoneDecodes(d, rest);
  }

  lemma EmptyString(rest: string)
    ensures ScanString("\"" + rest) == Some(0) && Decode("") == ""
  {}

  lemma Inside(a: string, b: string, rest: string)
    ensures a + b + "\"" + rest == a + (b + "\"" + rest)
  {}

  lemma LoneFirst(cs: seq<Ch>)
    requires ChsOk(cs) && cs != []
    ensures ChOk(cs[0]) && ChsOk(cs[1..])
    ensures cs[0].Lone? && High(Hex4(cs[0].digits)) ==> !StartsLow(AllWritten(cs[1..]))
    ensures AllWritten(cs) == Written(cs[0]) + AllWritten(cs[1..]) && AllMeant(cs) == Meant(cs[0]) + AllMeant(cs[1..])
  {
    hide Written, Meant, StartsLow;
    if cs[0].Lone? && High(Hex4(cs[0].digits)) { NoLow(cs[1..]); }
  }

  lemma NoChs()
    ensures AllWritten([]) == "" && AllMeant([]) == ""
  {}

  /** Strings round trip: however its characters are written, a string is found whole and decoded. */
  lemma {:induction false} StringReadsBack(cs: seq<Ch>, rest: string)
    requires ChsOk(cs)
    ensures ScanString(AllWritten(cs) + "\"" + rest) == Some(|AllWritten(cs)|)
    ensures Decode(AllWritten(cs)) == AllMeant(cs)
    decreases |cs|
  {
    hide ScanString, Decode, Written, Meant, ChOk, StartsLow, AllWritten, AllMeant, ChsOk, Hex4, High;
    if cs == [] {
      NoChs();
      assert "" + "\"" + rest == "\"" + rest;
      EmptyString(rest);
    } else {
      var more := AllWritten(cs[1..]);
      LoneFirst(cs);
      StringReadsBack(cs[1..], rest);
      WrittenScans(cs[0], more + "\"" + rest);
      WrittenDecodes(cs[0], more);
      Inside(Written(cs[0]), more, rest);
    }
  }

  // ---- and nothing else -----------------------------------------------------------------------------------

  lemma FrontOf(s: string, n: nat, m: nat)
    requires n + m <= |s|
    ensures s[..n] + s[n..][..m] == s[..n + m]
  {}

  // The first character of a string that is found whole, and where the next one begins.
  lemma FirstCh(s: string) returns (c: Ch, n: nat)
    requires s != "" && s[0] != '"' && ScanString(s).Some?
    ensures 0 < n <= |s| && ChOk(c) && Written(c) == s[..n] && ScanString(s) == Shift(n, ScanString(s[n..]))
    ensures c.Lone? && High(Hex4(c.digits)) ==> !StartsLow(s[n..])
  {
    if s[0] != '\\' {
      c, n := Raw(s[0]), 1;
    } else if Unescaped(s[1]).Some? {
      c, n := Short(s[1]), 2;
    } else {
      c, n := FirstEscape(s);
    }
  }

  lemma FirstEscape(s: string) returns (c: Ch, n: nat)
    requires |s| >= 2 && s[0] == '\\' && s[1] == 'u' && ScanString(s).Some?
    ensures 0 < n <= |s| && ChOk(c) && Written(c) == s[..n] && ScanString(s) == Shift(n, ScanString(s[n..]))
    ensures c.Lone? && High(Hex4(c.digits)) ==> !StartsLow(s[n..])
  {
    EscapeScans(s);
    var d, rest := s[2..6], s[6..];
    EscapeText(s);
    if !High(Hex4(d)) {
      c, n := if Hex4(d) == 0 || Low(Hex4(d)) then Lone(d) else Unicode(d), 6;
    } else if StartsLow(rest) {
      EscapeScans(rest);
      EscapeText(rest);
      c, n := Pair(d, rest[2..6]), 12;
      assert rest[6..] == s[12..] && s[..12] == s[..6] + rest[..6];
    } else {
      c, n := Lone(d), 6;
    }
    hide ScanString, Hex4, HexVal;
  }

  lemma EscapeScans(s: string)
    requires |s| >= 2 && s[0] == '\\' && s[1] == 'u' && ScanString(s).Some?
    ensures |s| >= 6 && FourHex(s[2..]) && ScanString(s) == Shift(6, ScanString(s[6..]))
  {
    assert Unescaped('u').None?;
  }

  lemma EscapeText(s: string)
    requires |s| >= 6 && s[0] == '\\' && s[1] == 'u' && FourHex(s[2..])
    ensures var d := s[2..6]; FourHex(d) && Hex4(d) == Hex4(s[2..]) && "\\u" + d == s[..6]
  {}

  /** The other way round: a string that is found whole consists of such characters. */
  lemma {:induction false} CharactersOf(s: string) returns (cs: seq<Ch>)
    requires ScanString(s).Some?
    ensures ChsOk(cs) && AllWritten(cs) == s[..ScanString(s).value]
    ensures cs != [] && cs[0].Lone? && Low(Hex4(cs[0].digits)) ==> StartsLow(s)
    decreases |s|
  {
    if s[0] == '"' {
      cs := [];
    } else {
      var c, n := FirstCh(s);
      var rest := s[n..];
      var more := CharactersOf(rest);
      cs := [c] + more;
      assert cs[1..] == more;
      FrontOf(s, n, ScanString(rest).value);
      if c.Lone? { LowStarts(c, s, n); }
      hide ScanString, StartsLow, ChOk, Written;
    }
  }

  lemma LowStarts(c: Ch, s: string, n: nat)
    requires ChOk(c) && c.Lone? && n <= |s| && Written(c) == s[..n]
    ensures Low(Hex4(c.digits)) ==> StartsLow(s)
  {
    assert s == "\\u" + c.digits + s[6..];
    HexFront(c.digits, s[6..]);
  }

  // ---- numbers (section 6) ---------------------------------------------------------------------------------

  predicate IsDigit(c: char) {
    '0' <= c <= '9'
  }

  // The first place from i on that is no digit.
  function Digits(s: string, i: nat): (r: nat)
    requires i <= |s|
    ensures i <= r <= |s| && (r < |s| ==> !IsDigit(s[r]))
    decreases |s| - i
  {
    if i < |s| && IsDigit(s[i]) then Digits(s, i + 1) else i
  }

  function IntegerEnd(s: string): (r: Option<nat>)
    ensures r.Some? ==> 0 < r.value <= |s|
  {
    var i := if s != "" && s[0] == '-' then 1 else 0;
    if i >= |s| then None
    else if s[i] == '0' then Some(i + 1)
    else if IsDigit(s[i]) then Some(Digits(s, i + 1))
    else None
  }

  function FractionEnd(s: string, i: nat): (r: Option<nat>)
    requires i <= |s|
    ensures r.Some? ==> i <= r.value <= |s|
  {
    if i == |s| || s[i] != '.' then Some(i)
    else if i + 1 < |s| && IsDigit(s[i + 1]) then Some(Digits(s, i + 1))
    else None
  }

  function ExponentEnd(s: string, i: nat): (r: Option<nat>)
    requires i <= |s|
    ensures r.Some? ==> i <= r.value <= |s|
  {
    if i == |s| || (s[i] != 'e' && s[i] != 'E') then Some(i)
    else
      var j := if i + 1 < |s| && (s[i + 1] == '+' || s[i + 1] == '-') then i + 2 else i + 1;
      if j < |s| && IsDigit(s[j]) then Some(Digits(s, j)) else None
  }

  // parse_number: the length of the number at the front of s.
  function NumberLen(s: string): (r: Option<nat>)
    ensures r.Some? ==> 0 < r.value <= |s|
  {
    match IntegerEnd(s)
    case None => None
    case Some(i) =>
      match FractionEnd(s, i)
      case None => None
      case Some(j) => ExponentEnd(s, j)
  }

  predicate IsNumber(s: string) {
    NumberLen(s) == Some(|s|)
  }

  // What may follow a number without becoming part of it.
  predicate Ends(rest: string) {
    rest == "" || (!IsDigit(rest[0]) && rest[0] !in ".eE+-")
  }

  lemma {:induction false} DigitsStop(s: string, rest: string, i: nat)
    requires i <= |s| && Ends(rest)
    ensures Digits(s + rest, i) == Digits(s, i)
    decreases |s| - i
  {
    if i < |s| && IsDigit(s[i]) { DigitsStop(s, rest, i + 1); }
  }

  lemma IntegerReadsBack(s: string, rest: string)
    requires IntegerEnd(s).Some? && Ends(rest)
    ensures IntegerEnd(s + rest) == IntegerEnd(s)
  {
    DigitsStop(s, rest, (if s[0] == '-' then 1 else 0) + 1);
    hide Digits;
  }

  lemma FractionReadsBack(s: string, i: nat, rest: string)
    requires i <= |s| && FractionEnd(s, i).Some? && Ends(rest)
    ensures FractionEnd(s + rest, i) == FractionEnd(s, i)
  {
    if i < |s| { DigitsStop(s, rest, i + 1); }
    hide Digits;
  }

  lemma ExponentReadsBack(s: string, i: nat, rest: string)
    requires i <= |s| && ExponentEnd(s, i).Some? && Ends(rest)
    ensures ExponentEnd(s + rest, i) == ExponentEnd(s, i)
  {
    if i < |s| {
      var k := if i + 1 < |s| && (s[i + 1] == '+' || s[i + 1] == '-') then i + 2 else i + 1;
      DigitsStop(s, rest, k);
    }
    hide Digits;
  }

  /** A number is read up to its end, whatever comes after. */
  lemma NumberReadsBack(s: string, rest: string)
    requires IsNumber(s) && Ends(rest)
    ensures NumberLen(s + rest) == Some(|s|)
  {
    IntegerReadsBack(s, rest);
    var i := IntegerEnd(s).value;
    FractionReadsBack(s, i, rest);
    ExponentReadsBack(s, FractionEnd(s, i).value, rest);
    hide IntegerEnd, FractionEnd, ExponentEnd, Ends;
  }
}
