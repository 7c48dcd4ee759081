/** src/m3u8.c: attribute lists (section 4.2 of RFC 8216) and initialization vectors. */
module M3u8Attrs {
  import opened Prelude

  // ---- scanning --------------------------------------------------------------------------------------

  // How many characters at the front of p are among those of set.
  function Run(p: string, among: string): (n: nat)
    ensures n <= |p| && (n < |p| ==> p[n] !in among)
    ensures forall k | 0 <= k < n :: p[k] in among
  {
    if p == "" || p[0] !in among then 0 else 1 + Run(p[1..], among)
  }

  // How many come before the first among those of stop.
  function Until(p: string, stop: string): (n: nat)
    ensures n <= |p| && (n < |p| ==> p[n] in stop)
    ensures forall k | 0 <= k < n :: p[k] !in stop
  {
    if p == "" || p[0] in stop then 0 else 1 + Until(p[1..], stop)
  }

  function TrimRight(s: string): (r: string)
    ensures r <= s && (r != "" ==> r[|r| - 1] !in " \t")
  {
    if s != "" && s[|s| - 1] in " \t" then TrimRight(s[..|s| - 1]) else s
  }

  function Cut(s: string, size: nat): string {
    if |s| > size then s[..size] else s
  }

  // ---- attr_next ----------------------------------------------------------------------------------------

  const KEY_ROOM := 63
  const VAL_ROOM := 1023

  datatype Attr = Attr(key: string, value: string, truncated: bool)

  // A value in quotes; what stands between the closing one and a comma is junk.
  function AfterQuote(q: string, n: nat): string {
    if 1 + n < |q| then q[2 + n..] else ""
  }

  function QuotedValue(q: string): (string, bool, string)
    requires q != ""
  {
    var n := Until(q[1..], "\"");
    var after := AfterQuote(q, n);
    (Cut(q[1..1 + n], VAL_ROOM), n > VAL_ROOM, after[Until(after, ",")..])
  }

  function PlainValue(q: string): (string, bool, string) {
    var n := Until(q, ",");
    (TrimRight(Cut(q[..n], VAL_ROOM)), n > VAL_ROOM, q[n..])
  }

  // The value after the '=', and what follows it.
  function Value(p: string): (string, bool, string) {
    var q := p[Run(p, " \t")..];
    if q != "" && q[0] == '"' then QuotedValue(q) else PlainValue(q)
  }

  // attr_next: the attribute at the front of p and the rest, or None when the list ends.
  function AttrNext(p: string): (r: Option<(Attr, string)>)
    ensures r.Some? ==> |r.value.1| < |p|
  {
    var q := p[Run(p, " \t,")..];
    if q == "" then None
    else
      var n := Until(q, "=,");
      var key, rest := TrimRight(Cut(q[..n], KEY_ROOM)), q[n..];
      if rest == "" || rest[0] == ',' then Some((Attr(key, "", false), rest))
      else
        var (value, cut, after) := Value(rest[1..]);
        Some((Attr(key, value, cut), after))
  }

  function Attrs(p: string): seq<Attr>
    decreases |p|
  {
    match AttrNext(p)
    case None => []
    case Some((a, rest)) => [a] + Attrs(rest)
  }

  // The loops of attr_next.
  method SkipRun(p: string, from: nat, among: string) returns (i: nat)
    requires from <= |p|
    ensures i == from + Run(p[from..], among)
  {
    i := from;
    while i < |p| && p[i] in among
      invariant from <= i <= |p| && from + Run(p[from..], among) == i + Run(p[i..], among)
    {
      assert p[i..][1..] == p[i + 1..];
      i := i + 1;
    }
  }

  lemma CutExtends(s: string, c: char, room: nat)
    ensures Cut(s + [c], room) == if |s| < room then Cut(s, room) + [c] else Cut(s, room)
    ensures |Cut(s, room)| < room <==> |s| < room
  {}

  lemma OneMore(p: string, from: nat, j: nat)
    requires from <= j <= |p|
    ensures p[from..][..j - from] == p[from..j]
    ensures j < |p| ==> p[from..j + 1] == p[from..j] + [p[j]]
    ensures p[from..from] == ""
  {}

  lemma KeptNone(p: string, from: nat, room: nat)
    requires from <= |p|
    ensures Cut(p[from..from], room) == ""
  {}

  lemma KeptOneMore(p: string, from: nat, j: nat, room: nat)
    requires from <= j < |p|
    ensures var kept := Cut(p[from..j], room); Cut(p[from..j + 1], room) == if |kept| < room then kept + [p[j]] else kept
  {
    hide Cut;
    OneMore(p, from, j);
    CutExtends(p[from..j], p[j], room);
  }

  // The characters up to a stop, as many as there is room for.
  method Collect(p: string, from: nat, stop: string, room: nat) returns (i: nat, kept: string, truncated: bool)
    requires from <= |p|
    ensures var n := Until(p[from..], stop);
      i == from + n && kept == Cut(p[from..][..n], room) && truncated == (n > room)
  {
    hide Cut, Until;
    i := SkipTo(p, from, stop);
    kept, truncated := "", i - from > room;
    KeptNone(p, from, room);
    for j := from to i
      invariant kept == Cut(p[from..j], room)
    {
      KeptOneMore(p, from, j, room);
      if |kept| < room { kept := kept + [p[j]]; }
    }
    OneMore(p, from, i);
  }

  method Trim(s: string) returns (r: string)
    ensures r == TrimRight(s)
  {
    var w: nat := |s|;
    assert s[..w] == s;
    while w > 0 && s[w - 1] in " \t"
      invariant w <= |s| && TrimRight(s) == TrimRight(s[..w])
    {
      assert s[..w][..w - 1] == s[..w - 1];
      w := w - 1;
    }
    r := s[..w];
  }

  // attr_next, scanning p from a position; it returns the position after the attribute.
  method Scan(p: string, from: nat) returns (r: Option<(Attr, nat)>)
    requires from <= |p|
    ensures AttrNext(p[from..]).None? <==> r.None?
    ensures r.Some? ==> r.value.1 <= |p| && AttrNext(p[from..]) == Some((r.value.0, p[r.value.1..]))
  {
    hide Run, Until, TrimRight, Cut, Value;
    var at := SkipRun(p, from, " \t,");
    Suffix(p, from, at);
    if at == |p| { return None; }
    var i, raw, _ := Collect(p, at, "=,", KEY_ROOM);
    var key := Trim(raw);
    Suffix(p, at, i);
    if i == |p| || p[i] == ',' { return Some((Attr(key, "", false), i)); }
    Suffix(p, i, i + 1);
    var value, cut, end := ScanValue(p, i + 1);
    r := Some((Attr(key, value, cut), end));
  }

  lemma Suffix(p: string, a: nat, b: nat)
    requires a <= b <= |p|
    ensures p[a..][b - a..] == p[b..]
  {}

  lemma Inner(p: string, at: nat, i: nat)
    requires at < i <= |p|
    ensures p[at + 1..][..i - at - 1] == p[at..][1..i - at]
    ensures AfterQuote(p[at..], i - at - 1) == p[if i < |p| then i + 1 else i..]
  {
    Within(p, at, i);
    if i < |p| {
      Suffix(p, at, i + 1);
    } else {
      assert p[i..] == "";
    }
  }

  lemma Within(p: string, at: nat, i: nat)
    requires at < i <= |p|
    ensures p[at + 1..][..i - at - 1] == p[at..][1..i - at]
  {}

  lemma QuotedIs(q: string, n: nat, after: string)
    requires q != "" && n == Until(q[1..], "\"") && after == AfterQuote(q, n)
    ensures QuotedValue(q) == (Cut(q[1..1 + n], VAL_ROOM), n > VAL_ROOM, after[Until(after, ",")..])
  {
    hide Until, Cut, AfterQuote;
  }

  lemma QuotedAt(p: string, at: nat, i: nat, after: nat, end: nat)
    requires at < i <= |p| && i == at + 1 + Until(p[at + 1..], "\"") && after == (if i < |p| then i + 1 else i)
    requires end == after + Until(p[after..], ",")
    ensures end <= |p|
    ensures QuotedValue(p[at..]) == (Cut(p[at + 1..][..i - at - 1], VAL_ROOM), i - at - 1 > VAL_ROOM, p[end..])
  {
    hide Until, Cut, AfterQuote, QuotedValue;
    Suffix(p, at, at + 1);
    Inner(p, at, i);
    QuotedIs(p[at..], i - at - 1, p[after..]);
    Suffix(p, after, end);
  }

  method ScanQuoted(p: string, at: nat) returns (value: string, cut: bool, end: nat)
    requires at < |p|
    ensures end <= |p| && QuotedValue(p[at..]) == (value, cut, p[end..])
  {
    hide Until, Cut, AfterQuote, QuotedValue;
    var i;
    i, value, cut := Collect(p, at + 1, "\"", VAL_ROOM);
    var after := if i < |p| then i + 1 else i;
    end := SkipTo(p, after, ",");
    QuotedAt(p, at, i, after, end);
  }

  method ScanPlain(p: string, at: nat) returns (value: string, cut: bool, end: nat)
    requires at <= |p|
    ensures end <= |p| && PlainValue(p[at..]) == (value, cut, p[end..])
  {
    hide Run, Until, TrimRight, Cut;
    var raw;
    end, raw, cut := Collect(p, at, ",", VAL_ROOM);
    value := Trim(raw);
    Suffix(p, at, end);
  }

  method ScanValue(p: string, from: nat) returns (value: string, cut: bool, end: nat)
    requires from <= |p|
    ensures end <= |p| && Value(p[from..]) == (value, cut, p[end..])
  {
    hide Run, QuotedValue, PlainValue;
    var at := SkipRun(p, from, " \t");
    Suffix(p, from, at);
    if at < |p| && p[at] == '"' {
      value, cut, end := ScanQuoted(p, at);
    } else {
      value, cut, end := ScanPlain(p, at);
    }
  }

  method SkipTo(p: string, from: nat, stop: string) returns (i: nat)
    requires from <= |p|
    ensures i == from + Until(p[from..], stop)
  {
    i := from;
    while i < |p| && p[i] !in stop
      invariant from <= i <= |p| && from + Until(p[from..], stop) == i + Until(p[i..], stop)
    {
      assert p[i..][1..] == p[i + 1..];
      i := i + 1;
    }
  }

  // ---- printing -------------------------------------------------------------------------------------------

  datatype Written = Written(key: string, value: string, quoted: bool)

  // What an attribute may consist of: a name, and a value that its form can carry.
  predicate WrittenOk(w: Written) {
    && w.key != "" && |w.key| <= 63 && |w.value| <= 1023
    && (forall c | c in w.key :: c !in " \t,=")
    && (if w.quoted then '"' !in w.value
        else ',' !in w.value && (w.value != "" ==> w.value[0] !in " \t\"" && w.value[|w.value| - 1] !in " \t"))
  }

  function Print(w: Written): string {
    w.key + "=" + if w.quoted then "\"" + w.value + "\"" else w.value
  }

  function PrintAll(ws: seq<Written>): string {
    if ws == [] then "" else if |ws| == 1 then Print(ws[0]) else Print(ws[0]) + "," + PrintAll(ws[1..])
  }

  lemma UntilIs(p: string, stop: string, n: nat)
    requires n <= |p| && (forall k | 0 <= k < n :: p[k] !in stop) && (n < |p| ==> p[n] in stop)
    ensures Until(p, stop) == n
  {}

  lemma TrimNothing(s: string)
    requires s == "" || s[|s| - 1] !in " \t"
    ensures TrimRight(s) == s
  {}

  lemma QuotedReadsBack(v: string, p: string, rest: string)
    requires '"' !in v && |v| <= VAL_ROOM && (rest == "" || rest[0] == ',')
    requires |p| == |v| + 2 + |rest| && p[0] == '"' && p[1..1 + |v|] == v && p[1 + |v|] == '"' && p[2 + |v|..] == rest
    ensures Value(p) == (v, false, rest)
  {
    assert Run(p, " \t") == 0;
    assert p[0..] == p;
    assert forall k | 0 <= k < |v| :: p[1..][k] == v[k];
    UntilIs(p[1..], "\"", |v|);
    UntilIs(rest, ",", 0);
    hide Run, Until;
    assert rest[0..] == rest;
  }

  lemma PlainReadsBack(v: string, p: string, rest: string)
    requires ',' !in v && |v| <= VAL_ROOM && (rest == "" || rest[0] == ',')
    requires v != "" ==> v[0] !in " \t\"" && v[|v| - 1] !in " \t"
    requires p == v + rest
    ensures Value(p) == (v, false, rest)
  {
    assert p == "" || (p[0] !in " \t" && p[0] != '"');
    assert Run(p, " \t") == 0;
    assert p[0..] == p;
    assert forall k | 0 <= k < |v| :: p[k] == v[k];
    UntilIs(p, ",", |v|);
    assert p[..|v|] == v && p[|v|..] == rest;
    TrimNothing(v);
    hide Run, Until, TrimRight;
  }

  lemma ValueReadsBack(w: Written, rest: string)
    requires WrittenOk(w) && (rest == "" || rest[0] == ',')
    ensures Value((if w.quoted then "\"" + w.value + "\"" else w.value) + rest) == (w.value, false, rest)
  {
    hide Value;
    if w.quoted {
      QuotedReadsBack(w.value, "\"" + w.value + "\"" + rest, rest);
    } else {
      PlainReadsBack(w.value, w.value + rest, rest);
    }
  }

  lemma KeyReadsBack(w: Written, p: string, tail: string)
    requires WrittenOk(w) && p == w.key + "=" + tail
    ensures Run(p, " \t,") == 0 && Until(p, "=,") == |w.key| && p[|w.key| + 1..] == tail
    ensures TrimRight(Cut(p[..|w.key|], KEY_ROOM)) == w.key
  {
    assert p[..|w.key|] == w.key && p[|w.key|] == '=';
    assert forall k | 0 <= k < |w.key| :: p[k] == w.key[k] && w.key[k] in w.key;
    UntilIs(p, "=,", |w.key|);
    assert w.key[|w.key| - 1] in w.key;
    TrimNothing(w.key);
  }

  lemma PrintIs(w: Written, rest: string)
    ensures Print(w) + rest == w.key + "=" + ((if w.quoted then "\"" + w.value + "\"" else w.value) + rest)
  {}

  lemma AttrReadsBack(w: Written, rest: string)
    requires WrittenOk(w) && (rest == "" || rest[0] == ',')
    ensures AttrNext(Print(w) + rest) == Some((Attr(w.key, w.value, false), rest))
  {
    hide Run, Until, TrimRight, Value, Print, Cut;
    var p := Print(w) + rest;
    var tail := (if w.quoted then "\"" + w.value + "\"" else w.value) + rest;
    PrintIs(w, rest);
    KeyReadsBack(w, p, tail);
    ValueReadsBack(w, rest);
    assert p[0..] == p && p[|w.key|..][1..] == tail;
  }

  // The comma between attributes is passed over.
  lemma CommaSkipped(p: string)
    requires p != ""
    ensures AttrNext("," + p) == AttrNext(p)
  {
    assert ("," + p)[1..] == p;
    assert ("," + p)[Run("," + p, " \t,")..] == p[Run(p, " \t,")..];
  }

  /** Attribute lists round trip: whatever names and values are written, quoted values with commas in them
      included, are read back in order. */
  lemma {:induction false} AttrsReadBack(ws: seq<Written>)
    requires forall k | 0 <= k < |ws| :: WrittenOk(ws[k])
    ensures |Attrs(PrintAll(ws))| == |ws|
    ensures forall k | 0 <= k < |ws| :: Attrs(PrintAll(ws))[k] == Attr(ws[k].key, ws[k].value, false)
    decreases |ws|
  {
    if ws == [] {
    } else if |ws| == 1 {
      assert Print(ws[0]) + "" == Print(ws[0]);
      AttrReadsBack(ws[0], "");
      hide AttrNext, Print;
      assert Attrs("") == [] by { NoAttrs(); }
    } else {
      var rest := PrintAll(ws[1..]);
      AttrReadsBack(ws[0], "," + rest);
      assert Print(ws[0]) + "," + rest == Print(ws[0]) + ("," + rest);
      assert rest != "";
      CommaSkipped(rest);
      hide AttrNext, Print;
      assert Attrs("," + rest) == Attrs(rest);
      AttrsReadBack(ws[1..]);
    }
  }

  lemma NoAttrs()
    ensures Attrs("") == []
  {}

  // ---- initialization vectors -------------------------------------------------------------------------------

  function HexBytes(s: string): Option<Bytes>
    requires |s| % 2 == 0
  {
    if s == "" then Some([])
    else
      var hi, lo, rest := HexVal(s[0]), HexVal(s[1]), HexBytes(s[2..]);
      if hi.None? || lo.None? || rest.None? then None
      else Some([(hi.value * 16 + lo.value) as byte] + rest.value)
  }

  // parse_iv: "0x" and exactly 32 hexadecimal digits
  function ParseIv(s: string): Option<Bytes> {
    if |s| != 34 || s[0] != '0' || (s[1] != 'x' && s[1] != 'X') then None else HexBytes(s[2..])
  }

  function Digit(n: nat): char
    requires n < 16
  {
    if n < 10 then '0' + n as char else 'A' + (n - 10) as char
  }

  function PrintHex(b: Bytes): (s: string)
    ensures |s| == 2 * |b|
  {
    if b == [] then "" else [Digit(b[0] as int / 16), Digit(b[0] as int % 16)] + PrintHex(b[1..])
  }

  lemma {:induction false} HexReadsBack(b: Bytes)
    ensures HexBytes(PrintHex(b)) == Some(b)
  {
    if b != [] {
      var s := PrintHex(b);
      assert s[0] == Digit(b[0] as int / 16) && s[1] == Digit(b[0] as int % 16) && s[2..] == PrintHex(b[1..]);
      HexReadsBack(b[1..]);
      assert b == [b[0]] + b[1..];
    }
  }

  /** An IV round trips; and nothing but "0x" and 32 digits is taken for one. */
  lemma IvReadsBack(iv: Bytes, s: string)
    requires |iv| == 16
    ensures ParseIv("0x" + PrintHex(iv)) == Some(iv)
    ensures ParseIv(s).Some? <==>
      |s| == 34 && s[..2] in ["0x", "0X"] && forall k | 2 <= k < 34 :: HexVal(s[k]).Some?
  {
    HexReadsBack(iv);
    assert ("0x" + PrintHex(iv))[2..] == PrintHex(iv);
    if |s| == 34 {
      HexDefined(s[2..]);
      assert s[..2] == [s[0], s[1]];
      assert forall k | 2 <= k < 34 :: s[2..][k - 2] == s[k];
      assert forall k | 0 <= k < 32 :: s[2..][k] == s[k + 2];
    }
  }

  lemma {:induction false} HexDefined(s: string)
    requires |s| % 2 == 0
    ensures HexBytes(s).Some? <==> forall k | 0 <= k < |s| :: HexVal(s[k]).Some?
  {
    if s != "" {
      HexDefined(s[2..]);
      assert forall k | 2 <= k < |s| :: s[k] == s[2..][k - 2];
      assert forall k | 0 <= k < |s[2..]| :: s[2..][k] == s[k + 2];
    }
  }
}
