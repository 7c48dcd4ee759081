/** src/json.c, the other way round: what json_parse accepts is a JSON text and nothing else. */
module JsonExact {
  import opened Prelude
  import opened JsonText
  import opened Json

  // ---- single pieces --------------------------------------------------------------------------------------

  lemma {:induction false} SpaceOf(s: string) returns (ws: string)
    ensures AllWs(ws) && s == ws + SkipWs(s)
  {
    if s != "" && IsWs(s[0]) {
      var more := SpaceOf(s[1..]);
      ws := [s[0]] + more;
      assert s == [s[0]] + s[1..];
    } else {
      ws := "";
    }
  }

  lemma {:induction false} DigitsWithin(s: string, i: nat, n: nat)
    requires i <= |s| && Digits(s, i) <= n <= |s|
    ensures Digits(s[..n], i) == Digits(s, i)
    decreases |s| - i
  {
    if i < |s| && IsDigit(s[i]) { DigitsWithin(s, i + 1, n); }
  }

  lemma IntegerWithin(s: string, n: nat)
    requires IntegerEnd(s).Some? && IntegerEnd(s).value <= n <= |s|
    ensures IntegerEnd(s[..n]) == IntegerEnd(s)
  {
    var i := if s[0] == '-' then 1 else 0;
    if s[i] != '0' { DigitsWithin(s, i + 1, n); }
    hide Digits;
  }

  lemma FractionWithin(s: string, i: nat, n: nat)
    requires i <= |s| && FractionEnd(s, i).Some? && FractionEnd(s, i).value <= n <= |s|
    ensures FractionEnd(s[..n], i) == FractionEnd(s, i)
  {
    if i < |s| && s[i] == '.' { DigitsWithin(s, i + 1, n); }
  }

  lemma ExponentWithin(s: string, i: nat)
    requires i <= |s| && ExponentEnd(s, i).Some?
    ensures ExponentEnd(s[..ExponentEnd(s, i).value], i) == ExponentEnd(s, i)
  {
    var n := ExponentEnd(s, i).value;
    if i < |s| && (s[i] == 'e' || s[i] == 'E') {
      var j := if i + 1 < |s| && (s[i + 1] == '+' || s[i + 1] == '-') then i + 2 else i + 1;
      DigitsWithin(s, j, n);
    }
  }

  // What is taken for a number is one by itself.
  lemma TokenIsNumber(s: string)
    requires NumberLen(s).Some?
    ensures IsNumber(s[..NumberLen(s).value])
  {
    var n, i := NumberLen(s).value, IntegerEnd(s).value;
    var j := FractionEnd(s, i).value;
    IntegerWithin(s, n);
    FractionWithin(s, i, n);
    ExponentWithin(s, j);
    hide IntegerEnd, FractionEnd, ExponentEnd;
  }

  lemma QuotedOf(s: string) returns (cs: seq<Ch>)
    requires ParseString(s).Some?
    ensures ChsOk(cs) && ParseString(s).value.v == AllMeant(cs) && s == Quoted(cs) + ParseString(s).value.rest
  {
    hide *;
    InQuotesOf(s);
    cs := CharactersOf(s[1..]);
    StringReadsBack(cs, "");
    IsQuoted(cs);
  }

  lemma QuotePieces(s: string, n: nat)
    requires n + 2 <= |s| && s[0] == '"' && s[1..][n] == '"'
    ensures s == "\"" + s[1..][..n] + "\"" + s[1..][n + 1..]
  {
    assert s[1..] == s[1..][..n] + [s[1..][n]] + s[1..][n + 1..];
  }

  lemma InQuotesOf(s: string)
    requires ParseString(s).Some?
    ensures s != "" && ScanString(s[1..]).Some?
    ensures var body := s[1..][..ScanString(s[1..]).value];
      ParseString(s).value.v == Decode(body) && s == "\"" + body + "\"" + ParseString(s).value.rest
  {
    hide ScanString, Decode;
    QuotePieces(s, ScanString(s[1..]).value);
  }

  lemma IsQuoted(cs: seq<Ch>)
    ensures Quoted(cs) == "\"" + AllWritten(cs) + "\""
  {}

  lemma ScalarOf(s: string, depth: nat) returns (d: Doc)
    requires s != "" && s[0] != '{' && s[0] != '[' && ParseValue(s, depth).Some?
    ensures var p := ParseValue(s, depth).value;
      DocOk(d) && Value(d) == p.v && s == Text(d) + p.rest && Depth(d) == 0
  {
    hide NumberLen, ScanString, Decode, AllMeant, IsNumber, AllWritten, ChsOk;
    if s[0] == '"' {
      var cs := QuotedOf(s);
      d := DString(cs);
    } else if s[0] == 't' {
      d := DBool(true);
    } else if s[0] == 'f' {
      d := DBool(false);
    } else if s[0] == 'n' {
      d := DNull;
    } else {
      TokenIsNumber(s);
      d := DNumber(s[..NumberLen(s).value]);
    }
  }

  // ---- arrays and objects -----------------------------------------------------------------------------------

  // An opening bracket, with what it comes to.
  lemma Opening(s: string, depth: nat)
    requires s != "" && (s[0] == '{' || s[0] == '[') && ParseValue(s, depth).Some?
    ensures depth < JSON_MAX_DEPTH && s == [s[0]] + s[1..]
    ensures var t, p := SkipWs(s[1..]), ParseValue(s, depth).value;
      if s[0] == '{' then
        if t != "" && t[0] == '}' then p == Parsed(JObject([]), t[1..]) else ParseMembers(s[1..], depth + 1, []) == Some(p)
      else
        if t != "" && t[0] == ']' then p == Parsed(JArray([]), t[1..]) else ParseItems(s[1..], depth + 1, []) == Some(p)
  {
    LoopsSkip(s[1..], depth + 1, [], []);
    hide SkipWs, ParseItems, ParseMembers;
  }

  // An empty one.
  lemma Closed(s: string, t: string) returns (pad: string)
    requires s != "" && t == SkipWs(s[1..]) && t != ""
    ensures AllWs(pad) && s == [s[0]] + (pad + [t[0]]) + t[1..]
  {
    pad := SpaceOf(s[1..]);
    assert s == [s[0]] + s[1..] && t == [t[0]] + t[1..];
    hide SkipWs;
    assert s == [s[0]] + (pad + t);
  }

  lemma {:induction false} ValueOf(s: string, depth: nat) returns (d: Doc)
    requires ParseValue(s, depth).Some? && depth <= JSON_MAX_DEPTH
    ensures var p := ParseValue(s, depth).value;
      DocOk(d) && Value(d) == p.v && s == Text(d) + p.rest && Fits(depth, Depth(d))
    decreases |s|, 0
  {
    hide *;
    NotEmpty(s, depth);
    if s[0] == '{' {
      Opening(s, depth);
      var t := SkipWs(s[1..]);
      if t != "" && t[0] == '}' {
        var pad := Closed(s, t);
        d := DObject(pad, NoMem);
        EmptyDocs(pad, depth);
      } else {
        var ms := MembersOf(s[1..], depth + 1, []);
        d := DObject("", ms);
        ObjectDoc(ms, depth);
        Opened("{", MemsText(ms), ParseValue(s, depth).value.rest);
      }
    } else if s[0] == '[' {
      Opening(s, depth);
      var t := SkipWs(s[1..]);
      if t != "" && t[0] == ']' {
        var pad := Closed(s, t);
        d := DArray(pad, NoItem);
        EmptyDocs(pad, depth);
      } else {
        var items := ItemsOf(s[1..], depth + 1, []);
        d := DArray("", items);
        ArrayDoc(items, depth);
        Opened("[", ItemsText(items), ParseValue(s, depth).value.rest);
      }
    } else {
      d := ScalarOf(s, depth);
      FitsFlat(depth);
    }
  }

  lemma NotEmpty(s: string, depth: nat)
    requires ParseValue(s, depth).Some?
    ensures s != ""
  {}

  lemma FitsFlat(depth: nat)
    requires depth <= JSON_MAX_DEPTH
    ensures Fits(depth, 0)
  {}

  lemma EmptyDocs(pad: string, depth: nat)
    requires AllWs(pad) && depth < JSON_MAX_DEPTH
    ensures var a, o := DArray(pad, NoItem), DObject(pad, NoMem);
      && DocOk(a) && Value(a) == JArray([]) && Text(a) == "[" + (pad + "]") && Fits(depth, Depth(a))
      && DocOk(o) && Value(o) == JObject([]) && Text(o) == "{" + (pad + "}") && Fits(depth, Depth(o))
  {}

  lemma ArrayDoc(items: Items, depth: nat)
    requires ItemsOk(items) && items.Item? && Fits(depth + 1, ItemsDepth(items))
    ensures var d := DArray("", items);
      DocOk(d) && Value(d) == JArray([] + Values(items)) && Text(d) == "[" + ItemsText(items) && Fits(depth, Depth(d))
    ensures depth + 1 <= JSON_MAX_DEPTH
  {
    assert [] + Values(items) == Values(items);
    hide Values, ItemsText, ItemsDepth, ItemsOk;
  }

  lemma ObjectDoc(ms: Mems, depth: nat)
    requires MemsOk(ms) && ms.Mem? && Fits(depth + 1, MemsDepth(ms))
    ensures var d := DObject("", ms);
      DocOk(d) && Value(d) == JObject([] + Members(ms)) && Text(d) == "{" + MemsText(ms) && Fits(depth, Depth(d))
    ensures depth + 1 <= JSON_MAX_DEPTH
  {
    assert [] + Members(ms) == Members(ms);
    hide Members, MemsText, MemsDepth, MemsOk;
  }

  // One turn of parse_array's loop: what it finds.
  lemma ItemTurn(s: string, depth: nat, got: seq<Json>)
    requires ParseItems(s, depth, got).Some?
    ensures ParseValue(SkipWs(s), depth).Some?
    ensures var p, q := ParseValue(SkipWs(s), depth).value, ParseItems(s, depth, got).value;
      var t := SkipWs(p.rest);
      && t != "" && t == [t[0]] + t[1..]
      && (if t[0] == ',' then ParseItems(t[1..], depth, got + [p.v]) == Some(q)
          else t[0] == ']' && q == Parsed(JArray(got + [p.v]), t[1..]))
  {
    hide SkipWs, ParseValue;
  }

  lemma {:induction false} ItemsOf(s: string, depth: nat, got: seq<Json>) returns (i: Items)
    requires ParseItems(s, depth, got).Some? && depth <= JSON_MAX_DEPTH
    ensures var p := ParseItems(s, depth, got).value;
      ItemsOk(i) && i.Item? && p.v == JArray(got + Values(i)) && s == ItemsText(i) + p.rest && Fits(depth, ItemsDepth(i))
    decreases |s|, 1
  {
    ItemTurn(s, depth, got);
    hide ParseValue, ParseItems, SkipWs, Text, Value, Depth, DocOk;
    var x := SkipWs(s);
    var p := ParseValue(x, depth).value;
    var t := SkipWs(p.rest);
    var before := SpaceOf(s);
    var after := SpaceOf(p.rest);
    var d := ValueOf(x, depth);
    var more := NoItem;
    if t[0] == ',' { more := ItemsOf(t[1..], depth, got + [p.v]); }
    i := Item(before, d, after, more);
    var rest := ParseItems(s, depth, got).value.rest;
    var tail := if more.NoItem? then "]" else "," + ItemsText(more);
    TailIs(t, tail, if more.NoItem? then "" else ItemsText(more), rest);
    ItemsTextUnfolds(i, rest);
    Regroup(before, Text(d), after, tail, rest);
    Extended(got, Value(d), Values(more), Values(i));
  }

  lemma TailIs(t: string, tail: string, more: string, rest: string)
    requires t != "" && t[1..] == more + rest && tail == [t[0]] + more
    ensures t == tail + rest
  {
    assert t == [t[0]] + t[1..];
  }

  // One turn of parse_object's loop.
  lemma MemberTurn(s: string, depth: nat, got: seq<Member>)
    requires ParseMembers(s, depth, got).Some?
    ensures ParseString(SkipWs(s)).Some?
    ensures var k := ParseString(SkipWs(s)).value;
      var t := SkipWs(k.rest);
      && t != "" && t[0] == ':' && ParseValue(SkipWs(t[1..]), depth).Some?
      && var p, q := ParseValue(SkipWs(t[1..]), depth).value, ParseMembers(s, depth, got).value;
         var u := SkipWs(p.rest);
         && u != ""
         && (if u[0] == ',' then ParseMembers(u[1..], depth, got + [Member(k.v, p.v)]) == Some(q)
             else u[0] == '}' && q == Parsed(JObject(got + [Member(k.v, p.v)]), u[1..]))
  {
    hide SkipWs, ParseValue, ParseString;
  }

  lemma MemberDoc(m: Mems, depth: nat)
    requires m.Mem? && AllWs(m.before) && ChsOk(m.key) && AllWs(m.colon) && AllWs(m.gap) && AllWs(m.after)
    requires DocOk(m.doc) && MemsOk(m.more) && Fits(depth, Depth(m.doc)) && Fits(depth, MemsDepth(m.more))
    ensures MemsOk(m) && Fits(depth, MemsDepth(m))
    ensures Members(m) == [Member(AllMeant(m.key), Value(m.doc))] + Members(m.more)
  {
    hide ChsOk, DocOk, Depth, AllWs, Value, AllMeant;
  }

  lemma NoMore(depth: nat)
    requires depth <= JSON_MAX_DEPTH
    ensures MemsOk(NoMem) && Members(NoMem) == [] && Fits(depth, MemsDepth(NoMem))
  {}

  lemma {:induction false} MembersOf(s: string, depth: nat, got: seq<Member>) returns (m: Mems)
    requires ParseMembers(s, depth, got).Some? && depth <= JSON_MAX_DEPTH
    ensures var p := ParseMembers(s, depth, got).value;
      MemsOk(m) && m.Mem? && p.v == JObject(got + Members(m)) && s == MemsText(m) + p.rest && Fits(depth, MemsDepth(m))
    decreases |s|, 1
  {
    hide *;
    MemberTurn(s, depth, got);
    NoMore(depth);
    var y := SkipWs(s);
    var k := ParseString(y).value;
    var t := SkipWs(k.rest);
    var x := SkipWs(t[1..]);
    var p := ParseValue(x, depth).value;
    var u := SkipWs(p.rest);
    var before := SpaceOf(s);
    var colon := SpaceOf(k.rest);
    var gap := SpaceOf(t[1..]);
    var after := SpaceOf(p.rest);
    var key := QuotedOf(y);
    var d := ValueOf(x, depth);
    var more := NoMem;
    if u[0] == ',' { more := MembersOf(u[1..], depth, got + [Member(k.v, p.v)]); }
    m := Mem(before, key, colon, gap, d, after, more);
    MemberDoc(m, depth);
    var rest := ParseMembers(s, depth, got).value.rest;
    var tail := if more.NoMem? then "}" else "," + MemsText(more);
    TailIs(u, tail, if more.NoMem? then "" else MemsText(more), rest);
    TailIs(t, ":", "", gap + x);
    MemsTextUnfolds(m, rest);
    Nested(before, Quoted(key), colon, gap, Text(d), after, tail, rest);
    Extended(got, Member(AllMeant(key), Value(d)), Members(more), Members(m));
  }

  // ---- the whole ----------------------------------------------------------------------------------------------

  // The text of a document with space around it.
  ghost predicate Spells(text: string, before: string, d: Doc, after: string) {
    AllWs(before) && AllWs(after) && DocOk(d) && text == before + Text(d) + after
  }

  lemma DocumentOf(text: string) returns (before: string, d: Doc, after: string)
    requires Parse(text).Some?
    ensures Spells(text, before, d, after) && Value(d) == Parse(text).value && Depth(d) <= 64
  {
    hide ParseValue, SkipWs, Text, Value, Depth, DocOk;
    var p := ParseValue(SkipWs(text), 0).value;
    before := SpaceOf(text);
    after := SpaceOf(p.rest);
    d := ValueOf(SkipWs(text), 0);
    assert before + (Text(d) + p.rest) == before + Text(d) + p.rest && after + "" == after;
  }

  /** json_parse accepts a text with a value if and only if it spells a document of that value, nested no
      deeper than 64, with white space around it. */
  lemma ParseIffDocument(text: string, v: Json)
    ensures Parse(text) == Some(v) <==>
      exists before, d, after :: Spells(text, before, d, after) && Value(d) == v && Depth(d) <= 64
  {
    hide Parse, Text, Value, Depth, DocOk;
    if Parse(text) == Some(v) {
      var before, d, after := DocumentOf(text);
      assert Spells(text, before, d, after) && Value(d) == v;
    }
    forall before, d, after | Spells(text, before, d, after) && Value(d) == v && Depth(d) <= 64
      ensures Parse(text) == Some(v)
    {
      DocumentReadsBack(d, before, after);
    }
  }
}
