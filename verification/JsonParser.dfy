/** src/json.c itself: a cursor over the document and a nesting depth, advanced by parsers that call one
    another, proved against the functions of Json and JsonText. */
module JsonParser {
  import opened Prelude
  import T = JsonText
  import opened J = Json

  lemma Suffix(s: string, a: nat, k: nat)
    requires a + k <= |s|
    ensures s[a..][k..] == s[a + k..]
  {}

  class Ctx {
    const text: string
    var p: nat
    var depth: nat

    ghost predicate Valid()
      reads this
    {
      p <= |text|
    }

    // What is left of the document.
    ghost function Left(): (s: string)
      requires Valid()
      reads this
      ensures |s| == |text| - p
    {
      text[p..]
    }

    constructor (document: string)
      ensures Valid() && Left() == document && depth == 0
    {
      text, p, depth := document, 0, 0;
    }

    method Advance(k: nat)
      requires Valid() && p + k <= |text|
      modifies `p
      ensures Valid() && p == old(p) + k && Left() == old(Left())[k..]
    {
      p := p + k;
      Suffix(text, p - k, k);
    }

    method SkipWs()
      requires Valid()
      modifies `p
      ensures Valid() && p >= old(p) && Left() == T.SkipWs(old(Left()))
    {
      while p < |text| && T.IsWs(text[p])
        invariant Valid() && p >= old(p) && T.SkipWs(old(Left())) == T.SkipWs(Left())
      {
        Suffix(text, p, 1);
        p := p + 1;
      }
    }

    // The string at the cursor, decoded.
    method ParseString() returns (r: Option<string>)
      requires Valid()
      modifies `p
      ensures Valid() && r.Some? == J.ParseString(old(Left())).Some?
      ensures r.Some? ==> J.ParseString(old(Left())) == Some(Parsed(r.value, Left()))
    {
      hide T.ScanString, T.Decode;
      if p == |text| || text[p] != '"' { return None; }
      Advance(1);
      var end := ScanString(text[p..]);
      if end.None? { return None; }
      var s := DecodeString(text[p..][..end.value]);
      Advance(end.value + 1);
      r := Some(s);
    }

    method ParseLiteral(lit: string, v: Json) returns (r: Option<Json>)
      requires Valid() && lit != ""
      modifies `p
      ensures Valid() && r.Some? == J.ParseLiteral(old(Left()), lit, v).Some?
      ensures r.Some? ==> J.ParseLiteral(old(Left()), lit, v) == Some(Parsed(r.value, Left()))
    {
      if |text| - p < |lit| || text[p..][..|lit|] != lit { return None; }
      Advance(|lit|);
      r := Some(v);
    }

    method ParseNumber() returns (r: Option<Json>)
      requires Valid()
      modifies `p
      ensures Valid() && r.Some? == J.ParseNumber(old(Left())).Some?
      ensures r.Some? ==> J.ParseNumber(old(Left())) == Some(Parsed(r.value, Left()))
    {
      var n := ScanNumber(text[p..]);
      if n.None? { return None; }
      var token := text[p..][..n.value];
      hide T.NumberLen;
      Advance(n.value);
      r := Some(JNumber(token));
    }

    // parse_value
    method ParseValue() returns (r: Option<Json>)
      requires Valid()
      modifies `p, `depth
      ensures Valid() && depth == old(depth) && r.Some? == J.ParseValue(old(Left()), depth).Some?
      ensures r.Some? ==> J.ParseValue(old(Left()), depth) == Some(Parsed(r.value, Left())) && p > old(p)
      decreases |text| - p, 1
    {
      hide T.SkipWs, J.ParseString, J.ParseNumber, J.ParseLiteral, J.ParseItems, J.ParseMembers;
      if p == |text| { return None; }
      var c := text[p];
      if c == '{' || c == '[' {
        if depth >= JSON_MAX_DEPTH { return None; }
        depth := depth + 1;
        if c == '{' { r := ParseObject(); } else { r := ParseArray(); }
        depth := depth - 1;
      } else if c == '"' {
        var s := ParseString();
        r := if s.Some? then Some(JString(s.value)) else None;
      } else if c == 't' {
        r := ParseLiteral("true", JBool(true));
      } else if c == 'f' {
        r := ParseLiteral("false", JBool(false));
      } else if c == 'n' {
        r := ParseLiteral("null", JNull);
      } else {
        r := ParseNumber();
      }
    }

    // parse_array, at its opening bracket
    method ParseArray() returns (r: Option<Json>)
      requires Valid() && p < |text| && text[p] == '[' && 0 < depth <= JSON_MAX_DEPTH
      modifies `p, `depth
      ensures Valid() && depth == old(depth) && r.Some? == J.ParseValue(old(Left()), depth - 1).Some?
      ensures r.Some? ==> J.ParseValue(old(Left()), depth - 1) == Some(Parsed(r.value, Left())) && p > old(p)
      decreases |text| - p, 0
    {
      hide T.SkipWs, J.ParseItems, J.ParseMembers;
      ghost var goal := J.ParseValue(Left(), depth - 1);
      Advance(1);
      SkipWs();
      if p < |text| && text[p] == ']' {
        Advance(1);
        return Some(JArray([]));
      }
      hide J.ParseValue;
      var got: seq<Json> := [];
      while true
        invariant Valid() && p > old(p) && depth == old(depth) && goal == J.ParseItems(Left(), depth, got)
        decreases |text| - p
      {
        ghost var s := Left();
        SkipWs();
        var v := ParseValue();
        if v.None? {
          ItemsFail(s, depth, got);
          return None;
        }
        ghost var rest := Left();
        SkipWs();
        ItemsGo(s, depth, got, v.value, rest);
        if p == |text| { return None; }
        if text[p] == ',' {
          Advance(1);
          got := got + [v.value];
        } else if text[p] == ']' {
          Advance(1);
          return Some(JArray(got + [v.value]));
        } else {
          return None;
        }
      }
    }

    // parse_object, at its opening brace
    method ParseObject() returns (r: Option<Json>)
      requires Valid() && p < |text| && text[p] == '{' && 0 < depth <= JSON_MAX_DEPTH
      modifies `p, `depth
      ensures Valid() && depth == old(depth) && r.Some? == J.ParseValue(old(Left()), depth - 1).Some?
      ensures r.Some? ==> J.ParseValue(old(Left()), depth - 1) == Some(Parsed(r.value, Left())) && p > old(p)
      decreases |text| - p, 0
    {
      hide T.SkipWs, J.ParseItems, J.ParseMembers, MemberAt;
      ghost var goal := J.ParseValue(Left(), depth - 1);
      Advance(1);
      SkipWs();
      if p < |text| && text[p] == '}' {
        Advance(1);
        return Some(JObject([]));
      }
      hide J.ParseValue;
      var got: seq<Member> := [];
      while true
        invariant Valid() && p > old(p) && depth == old(depth) && goal == J.ParseMembers(Left(), depth, got)
        decreases |text| - p
      {
        ghost var s := Left();
        MembersGo(s, depth, got);
        var m := ParseMember();
        if m.None? { return None; }
        SkipWs();
        if p == |text| { return None; }
        if text[p] == ',' {
          Advance(1);
          got := got + [m.value];
        } else if text[p] == '}' {
          Advance(1);
          return Some(JObject(got + [m.value]));
        } else {
          return None;
        }
      }
    }

    // A key, a colon and a value.
    method ParseMember() returns (r: Option<Member>)
      requires Valid() && 0 < depth <= JSON_MAX_DEPTH
      modifies `p, `depth
      ensures Valid() && depth == old(depth) && r.Some? == MemberAt(old(Left()), depth).Some?
      ensures r.Some? ==> MemberAt(old(Left()), depth) == Some(Parsed(r.value, Left())) && p > old(p)
      decreases |text| - p, 2
    {
      hide T.SkipWs, J.ParseString, J.ParseValue;
      SkipWs();
      var key := ParseString();
      if key.None? { return None; }
      SkipWs();
      if p == |text| || text[p] != ':' { return None; }
      Advance(1);
      SkipWs();
      var v := ParseValue();
      r := if v.Some? then Some(Member(key.value, v.value)) else None;
    }
  }

  // What one turn of parse_object's loop reads.
  function MemberAt(s: string, depth: nat): Option<Parsed<Member>> {
    match J.ParseString(T.SkipWs(s))
    case None => None
    case Some(k) =>
      var t := T.SkipWs(k.rest);
      if t == "" || t[0] != ':' then None
      else
        match J.ParseValue(T.SkipWs(t[1..]), depth)
        case None => None
        case Some(v) => Some(Parsed(Member(k.v, v.v), v.rest))
  }

  // scan_string, past the opening quote: where the closing one is.
  method ScanString(s: string) returns (end: Option<nat>)
    ensures end == T.ScanString(s)
  {
    var i: nat := 0;
    ShiftNothing(T.ScanString(s));
    assert s[0..] == s;
    hide *;
    while i < |s|
      invariant i <= |s| && T.ScanString(s) == T.Shift(i, T.ScanString(s[i..]))
    {
      var found, step := ScanOne(s, i);
      ShiftEnds(i);
      if found { return Some(i); }
      if step == 0 { return None; }
      ShiftAdds(i, step, T.ScanString(s[i + step..]));
      i := i + step;
    }
    ScanEnds();
    ShiftEnds(i);
    assert s[i..] == "";
    end := None;
  }

  lemma ShiftNothing(r: Option<nat>)
    ensures T.Shift(0, r) == r
  {}

  lemma ShiftAdds(a: nat, b: nat, r: Option<nat>)
    ensures T.Shift(a, T.Shift(b, r)) == T.Shift(a + b, r)
  {}

  lemma ShiftEnds(a: nat)
    ensures T.Shift(a, None) == None && T.Shift(a, Some(0)) == Some(a)
  {}

  lemma ScanEnds()
    ensures T.ScanString("") == None
  {}

  // The next character or escape of a string: its closing quote, or how much there is of it, or nothing
  // that may stand in a string.
  method ScanOne(text: string, i: nat) returns (found: bool, step: nat)
    requires i < |text|
    ensures found ==> T.ScanString(text[i..]) == Some(0)
    ensures !found && step == 0 ==> T.ScanString(text[i..]) == None
    ensures !found && step > 0 ==>
      i + step <= |text| && T.ScanString(text[i..]) == T.Shift(step, T.ScanString(text[i + step..]))
  {
    hide T.FourHex, T.Unescaped;
    found, step := text[i] == '"', 0;
    if found || text[i] < ' ' { return; }
    if text[i] != '\\' {
      step := 1;
    } else if i + 1 >= |text| {
      return;
    } else if T.Unescaped(text[i + 1]).Some? {
      step := 2;
    } else if text[i + 1] == 'u' && i + 6 <= |text| && T.FourHex(text[i + 2..]) {
      step := 6;
    } else {
      ScanFails(text, i);
      return;
    }
    ScanStep(text, i, step);
    hide T.ScanString;
  }

  lemma ScanStep(text: string, i: nat, step: nat)
    requires i + step <= |text| && i < |text| && text[i] != '"' && text[i] >= ' '
    requires if text[i] != '\\' then step == 1
             else i + 1 < |text| && if T.Unescaped(text[i + 1]).Some? then step == 2
                                    else step == 6 && text[i + 1] == 'u' && T.FourHex(text[i + 2..])
    ensures T.ScanString(text[i..]) == T.Shift(step, T.ScanString(text[i + step..]))
  {
    hide T.FourHex, T.Unescaped;
    Suffix(text, i, step);
    if i + 2 <= |text| { Suffix(text, i, 2); }
  }

  lemma ScanFails(text: string, i: nat)
    requires i + 1 < |text| && text[i] == '\\' && T.Unescaped(text[i + 1]).None?
    requires !(text[i + 1] == 'u' && i + 6 <= |text| && T.FourHex(text[i + 2..]))
    ensures T.ScanString(text[i..]).None?
  {
    Suffix(text, i, 2);
  }

  // The loops of decode_string: one escape or plain character at a time, never more out than in.
  method DecodeString(s: string) returns (out: string)
    ensures out == T.Decode(s) && |out| <= |s|
  {
    out := "";
    var i: nat := 0;
    assert s[0..] == s;
    hide T.Decode;
    Joined("", T.Decode(s), "");
    while i < |s|
      invariant i <= |s| && |out| <= i && out + T.Decode(s[i..]) == T.Decode(s)
    {
      var more, k := DecodeOne(s, i);
      Joined(out, more, T.Decode(s[i + k..]));
      out := out + more;
      i := i + k;
    }
    NothingLeft();
    assert s[i..] == "";
    Joined(out, "", "");
  }

  lemma NothingLeft()
    ensures T.Decode("") == ""
  {}

  lemma Joined(a: string, b: string, c: string)
    ensures a + b + c == a + (b + c) && a + "" == a && "" + b == b
  {}

  // What the next character or escape of a string decodes to, and how much of it there is.
  method DecodeOne(s: string, i: nat) returns (more: string, k: nat)
    requires i < |s|
    ensures 0 < k <= |s| - i && |more| <= k
    ensures T.Decode(s[i..]) == more + T.Decode(s[i + k..])
  {
    hide T.Utf8, T.CodePoint;
    if s[i] != '\\' {
      more, k := [s[i]], 1;
      Suffix(s, i, 1);
    } else if i + 1 < |s| && T.Unescaped(s[i + 1]).Some? {
      more, k := [T.Unescaped(s[i + 1]).value], 2;
      Suffix(s, i, 2);
    } else if i + 6 <= |s| {
      var (cp, n) := T.CodePoint(s[i..]);
      more, k := T.Utf8(cp), n;
      Suffix(s, i, n);
    } else {
      more, k := "", |s| - i;
      assert s[i + k..] == "" && "" + T.Decode("") == "";
    }
  }

  method SkipDigits(s: string, from: nat) returns (i: nat)
    requires from <= |s|
    ensures i == T.Digits(s, from)
  {
    i := from;
    while i < |s| && T.IsDigit(s[i])
      invariant from <= i <= |s| && T.Digits(s, from) == T.Digits(s, i)
    {
      i := i + 1;
    }
  }

  // The grammar parse_number checks by hand.
  method ScanNumber(s: string) returns (n: Option<nat>)
    ensures n == T.NumberLen(s)
  {
    hide T.IntegerEnd, T.FractionEnd, T.ExponentEnd;
    n := ScanInteger(s);
    if n.Some? { n := ScanFraction(s, n.value); }
    if n.Some? { n := ScanExponent(s, n.value); }
  }

  method ScanInteger(s: string) returns (n: Option<nat>)
    ensures n == T.IntegerEnd(s)
  {
    hide T.Digits;
    var i := if s != "" && s[0] == '-' then 1 else 0;
    if i >= |s| { return None; }
    if s[i] == '0' { return Some(i + 1); }
    if !T.IsDigit(s[i]) { return None; }
    i := SkipDigits(s, i + 1);
    n := Some(i);
  }

  method ScanFraction(s: string, from: nat) returns (n: Option<nat>)
    requires from <= |s|
    ensures n == T.FractionEnd(s, from)
  {
    hide T.Digits;
    if from == |s| || s[from] != '.' { return Some(from); }
    if from + 1 >= |s| || !T.IsDigit(s[from + 1]) { return None; }
    var i := SkipDigits(s, from + 1);
    n := Some(i);
  }

  method ScanExponent(s: string, from: nat) returns (n: Option<nat>)
    requires from <= |s|
    ensures n == T.ExponentEnd(s, from)
  {
    hide T.Digits;
    if from == |s| || (s[from] != 'e' && s[from] != 'E') { return Some(from); }
    var i := from + 1;
    if i < |s| && (s[i] == '+' || s[i] == '-') { i := i + 1; }
    if i >= |s| || !T.IsDigit(s[i]) { return None; }
    i := SkipDigits(s, i);
    n := Some(i);
  }

  // ---- one turn of a loop --------------------------------------------------------------------------------

  lemma ItemsFail(s: string, depth: nat, got: seq<Json>)
    requires J.ParseValue(T.SkipWs(s), depth).None?
    ensures J.ParseItems(s, depth, got).None?
  {}

  lemma ItemsGo(s: string, depth: nat, got: seq<Json>, v: Json, rest: string)
    requires J.ParseValue(T.SkipWs(s), depth) == Some(Parsed(v, rest))
    ensures var t := T.SkipWs(rest);
      J.ParseItems(s, depth, got) ==
        if t == "" then None
        else if t[0] == ',' then J.ParseItems(t[1..], depth, got + [v])
        else if t[0] == ']' then Some(Parsed(JArray(got + [v]), t[1..]))
        else None
  {
    hide T.SkipWs, J.ParseValue;
  }

  lemma MembersGo(s: string, depth: nat, got: seq<Member>)
    ensures J.ParseMembers(s, depth, got) ==
      match MemberAt(s, depth)
      case None => None
      case Some(m) =>
        var u := T.SkipWs(m.rest);
        if u == "" then None
        else if u[0] == ',' then J.ParseMembers(u[1..], depth, got + [m.v])
        else if u[0] == '}' then Some(Parsed(JObject(got + [m.v]), u[1..]))
        else None
  {
    hide T.SkipWs, J.ParseValue, J.ParseString;
  }

  /** json_parse: the value of a whole document, or nothing. */
  method JsonParse(text: string) returns (r: Option<Json>)
    ensures r == J.Parse(text)
  {
    if text == "" {
      return None;
    }
    var c := new Ctx(text);
    c.SkipWs();
    r := c.ParseValue();
    if r.None? { return; }
    c.SkipWs();
    if c.p != |c.text| { return None; }
  }
}
