/** src/json.c: values, arrays and objects (RFC 8259), and the round trip through them. */
module Json {
  import opened Prelude
  import opened JsonText

  const JSON_MAX_DEPTH := 64

  // A number is kept as its token.
  datatype Json = JNull | JBool(b: bool) | JNumber(token: string) | JString(s: string)
                | JArray(items: seq<Json>) | JObject(members: seq<Member>)
  datatype Member = Member(key: string, val: Json)

  // ---- the parser ---------------------------------------------------------------------------------------

  // A value and the text after it.
  datatype Parsed<T> = Parsed(v: T, rest: string)

  function ParseLiteral(s: string, lit: string, v: Json): (r: Option<Parsed<Json>>)
    requires lit != ""
    ensures r.Some? ==> |r.value.rest| < |s|
  {
    if |s| >= |lit| && s[..|lit|] == lit then Some(Parsed(v, s[|lit|..])) else None
  }

  // A quoted string, decoded.
  function ParseString(s: string): (r: Option<Parsed<string>>)
    ensures r.Some? ==> |r.value.rest| < |s|
  {
    if s == "" || s[0] != '"' then None
    else
      var end := ScanString(s[1..]);
      if end.None? then None else Some(Parsed(Decode(s[1..][..end.value]), s[1..][end.value + 1..]))
  }

  function ParseNumber(s: string): (r: Option<Parsed<Json>>)
    ensures r.Some? ==> |r.value.rest| < |s|
  {
    var n := NumberLen(s);
    if n.None? then None else Some(Parsed(JNumber(s[..n.value]), s[n.value..]))
  }

  // parse_value at a nesting depth
  function ParseValue(s: string, depth: nat): (r: Option<Parsed<Json>>)
    ensures r.Some? ==> |r.value.rest| < |s|
    decreases |s|, 0
  {
    if s == "" then None
    else if s[0] == '{' then
      if depth >= JSON_MAX_DEPTH then None
      else
        var t := SkipWs(s[1..]);
        if t != "" && t[0] == '}' then Some(Parsed(JObject([]), t[1..])) else ParseMembers(t, depth + 1, [])
    else if s[0] == '[' then
      if depth >= JSON_MAX_DEPTH then None
      else
        var t := SkipWs(s[1..]);
        if t != "" && t[0] == ']' then Some(Parsed(JArray([]), t[1..])) else ParseItems(t, depth + 1, [])
    else if s[0] == '"' then
      match ParseString(s)
      case None => None
      case Some(p) => Some(Parsed(JString(p.v), p.rest))
    else if s[0] == 't' then ParseLiteral(s, "true", JBool(true))
    else if s[0] == 'f' then ParseLiteral(s, "false", JBool(false))
    else if s[0] == 'n' then ParseLiteral(s, "null", JNull)
    else ParseNumber(s)
  }

  // The loop of parse_array.
  function ParseItems(s: string, depth: nat, got: seq<Json>): (r: Option<Parsed<Json>>)
    ensures r.Some? ==> |r.value.rest| < |s|
    decreases |s|, 1
  {
    match ParseValue(SkipWs(s), depth)
    case None => None
    case Some(p) =>
      var t := SkipWs(p.rest);
      if t == "" then None
      else if t[0] == ',' then ParseItems(t[1..], depth, got + [p.v])
      else if t[0] == ']' then Some(Parsed(JArray(got + [p.v]), t[1..]))
      else None
  }

  // The loop of parse_object.
  function ParseMembers(s: string, depth: nat, got: seq<Member>): (r: Option<Parsed<Json>>)
    ensures r.Some? ==> |r.value.rest| < |s|
    decreases |s|, 1
  {
    match ParseString(SkipWs(s))
    case None => None
    case Some(k) =>
      var t := SkipWs(k.rest);
      if t == "" || t[0] != ':' then None
      else
        match ParseValue(SkipWs(t[1..]), depth)
        case None => None
        case Some(p) =>
          var u := SkipWs(p.rest);
          if u == "" then None
          else if u[0] == ',' then ParseMembers(u[1..], depth, got + [Member(k.v, p.v)])
          else if u[0] == '}' then Some(Parsed(JObject(got + [Member(k.v, p.v)]), u[1..]))
          else None
  }

  // json_parse
  function Parse(text: string): Option<Json> {
    match ParseValue(SkipWs(text), 0)
    case None => None
    case Some(p) => if SkipWs(p.rest) == "" then Some(p.v) else None
  }

  // ---- documents: values as they may be written ---------------------------------------------------------

  datatype Doc = DNull | DBool(b: bool) | DNumber(token: string) | DString(chs: seq<Ch>)
               | DArray(pad: string, items: Items) | DObject(pad: string, members: Mems)
  datatype Items = NoItem | Item(before: string, doc: Doc, after: string, more: Items)
  datatype Mems = NoMem
                | Mem(before: string, key: seq<Ch>, colon: string, gap: string, doc: Doc, after: string, more: Mems)

  ghost predicate DocOk(d: Doc) {
    match d
    case DNumber(token) => IsNumber(token)
    case DString(chs) => ChsOk(chs)
    case DArray(pad, items) => AllWs(pad) && ItemsOk(items)
    case DObject(pad, members) => AllWs(pad) && MemsOk(members)
    case _ => true
  }

  ghost predicate ItemsOk(items: Items) {
    items.Item? ==> AllWs(items.before) && DocOk(items.doc) && AllWs(items.after) && ItemsOk(items.more)
  }

  ghost predicate MemsOk(ms: Mems) {
    ms.Mem? ==>
      AllWs(ms.before) && ChsOk(ms.key) && AllWs(ms.colon) && AllWs(ms.gap) && DocOk(ms.doc) && AllWs(ms.after) &&
      MemsOk(ms.more)
  }

  function Quoted(cs: seq<Ch>): string {
    "\"" + AllWritten(cs) + "\""
  }

  // pad is the space in an empty array or object.
  function Text(d: Doc): string {
    match d
    case DNull => "null"
    case DBool(b) => if b then "true" else "false"
    case DNumber(token) => token
    case DString(chs) => Quoted(chs)
    case DArray(pad, items) => "[" + (if items.NoItem? then pad + "]" else ItemsText(items))
    case DObject(pad, members) => "{" + (if members.NoMem? then pad + "}" else MemsText(members))
  }

  function ItemsText(items: Items): string {
    match items
    case NoItem => ""
    case Item(before, doc, after, more) =>
      before + Text(doc) + after + (if more.NoItem? then "]" else "," + ItemsText(more))
  }

  function MemsText(ms: Mems): string {
    match ms
    case NoMem => ""
    case Mem(before, key, colon, gap, doc, after, more) =>
      before + Quoted(key) + colon + ":" + gap + Text(doc) + after + (if more.NoMem? then "}" else "," + MemsText(more))
  }

  ghost function Value(d: Doc): Json
    requires DocOk(d)
  {
    match d
    case DNull => JNull
    case DBool(b) => JBool(b)
    case DNumber(token) => JNumber(token)
    case DString(chs) => JString(AllMeant(chs))
    case DArray(_, items) => JArray(Values(items))
    case DObject(_, members) => JObject(Members(members))
  }

  ghost function Values(items: Items): seq<Json>
    requires ItemsOk(items)
  {
    if items.NoItem? then [] else [Value(items.doc)] + Values(items.more)
  }

  ghost function Members(ms: Mems): seq<Member>
    requires MemsOk(ms)
  {
    if ms.NoMem? then [] else [Member(AllMeant(ms.key), Value(ms.doc))] + Members(ms.more)
  }

  // How deep arrays and objects nest.
  function Depth(d: Doc): nat {
    match d
    case DArray(_, items) => 1 + ItemsDepth(items)
    case DObject(_, members) => 1 + MemsDepth(members)
    case _ => 0
  }

  function Max(a: nat, b: nat): nat {
    if a > b then a else b
  }

  function ItemsDepth(items: Items): nat {
    if items.NoItem? then 0 else Max(Depth(items.doc), ItemsDepth(items.more))
  }

  function MemsDepth(ms: Mems): nat {
    if ms.NoMem? then 0 else Max(Depth(ms.doc), MemsDepth(ms.more))
  }

  // ---- single pieces -----------------------------------------------------------------------------------------

  lemma WsThen(ws: string, rest: string)
    requires AllWs(ws) && (rest == "" || !IsWs(rest[0]))
    ensures SkipWs(ws + rest) == rest
  {
    SkipsWs(ws, rest);
  }

  lemma QuotedReadsBack(cs: seq<Ch>, rest: string)
    requires ChsOk(cs)
    ensures ParseString(Quoted(cs) + rest) == Some(Parsed(AllMeant(cs), rest))
  {
    hide ScanString, Decode, AllWritten;
    StringReadsBack(cs, rest);
    InQuotes(AllWritten(cs), rest);
  }

  lemma InQuotes(body: string, rest: string)
    ensures var s := "\"" + body + "\"" + rest;
      s[0] == '"' && s[1..] == body + "\"" + rest && s[1..][..|body|] == body && s[1..][|body| + 1..] == rest
  {}

  // The first character of a document tells its kind, and is no white space.
  lemma NumberStarts(token: string)
    requires IsNumber(token)
    ensures token[0] == '-' || IsDigit(token[0])
  {}

  lemma {:induction false} TextStarts(d: Doc)
    requires DocOk(d)
    ensures Text(d) != "" && !IsWs(Text(d)[0]) && Text(d)[0] !in "]}"
  {
    match d
    case DNumber(token) => NumberStarts(token);
    case _ =>
      hide ItemsText, MemsText, AllWritten;
  }

  // What follows a value inside an array or object, or at the end of the text.
  predicate Follows(rest: string) {
    rest == "" || IsWs(rest[0]) || rest[0] in ",]}"
  }

  lemma ScalarReadsBack(d: Doc, rest: string, depth: nat)
    requires DocOk(d) && !d.DArray? && !d.DObject? && Follows(rest)
    ensures ParseValue(Text(d) + rest, depth) == Some(Parsed(Value(d), rest))
  {
    hide NumberLen, ScanString, Decode, AllWritten, AllMeant, ParseNumber, ParseLiteral, ParseString;
    match d
    case DNumber(token) =>
      NumberStarts(token);
      ReadsNumber(token, rest);
    case DString(chs) => QuotedReadsBack(chs, rest);
    case DNull => LiteralReadsBack("null", rest, JNull);
    case DBool(b) => LiteralReadsBack(if b then "true" else "false", rest, JBool(b));
    case _ =>
  }

  lemma ReadsNumber(token: string, rest: string)
    requires IsNumber(token) && Follows(rest)
    ensures ParseNumber(token + rest) == Some(Parsed(JNumber(token), rest))
  {
    NumberReadsBack(token, rest);
    hide NumberLen;
    assert (token + rest)[..|token|] == token && (token + rest)[|token|..] == rest;
  }

  lemma LiteralReadsBack(lit: string, rest: string, v: Json)
    requires lit != ""
    ensures ParseLiteral(lit + rest, lit, v) == Some(Parsed(v, rest))
  {
    assert (lit + rest)[..|lit|] == lit && (lit + rest)[|lit|..] == rest;
  }

  lemma {:induction false} SkipTwice(s: string)
    ensures SkipWs(SkipWs(s)) == SkipWs(s)
  {
    if s != "" && IsWs(s[0]) { SkipTwice(s[1..]); }
  }

  // Leading space makes no difference to the loops.
  lemma LoopsSkip(s: string, depth: nat, items: seq<Json>, ms: seq<Member>)
    ensures ParseItems(SkipWs(s), depth, items) == ParseItems(s, depth, items)
    ensures ParseMembers(SkipWs(s), depth, ms) == ParseMembers(s, depth, ms)
  {
    SkipTwice(s);
    hide SkipWs, ParseString;
  }

  // What follows the values of an array or object: the space after one, and a separator or the end.
  lemma AfterValue(after: string, tail: string, rest: string)
    requires AllWs(after) && tail != "" && tail[0] in ",]}"
    ensures Follows(after + (tail + rest)) && SkipWs(after + (tail + rest)) == tail + rest
  {
    var all := tail + rest;
    assert all[0] == tail[0];
    WsThen(after, all);
    if after != "" { assert after[0] in after; }
  }

  // ---- the round trip ------------------------------------------------------------------------------------------

  // One step of parse_array's loop.
  lemma ItemStep(before: string, text: string, after: string, tail: string, rest: string, depth: nat, got: seq<Json>)
    requires AllWs(before) && AllWs(after) && text != "" && !IsWs(text[0]) && tail != "" && tail[0] in ",]"
    ensures Follows(after + (tail + rest))
    ensures ParseItems(before + text + after + tail + rest, depth, got) ==
      match ParseValue(text + (after + (tail + rest)), depth)
      case None => None
      case Some(p) =>
        if p.rest != after + (tail + rest) then ParseItems(before + text + after + tail + rest, depth, got)
        else if tail[0] == ',' then ParseItems((tail + rest)[1..], depth, got + [p.v])
        else Some(Parsed(JArray(got + [p.v]), (tail + rest)[1..]))
  {
    var s := before + text + after + tail + rest;
    var x := after + (tail + rest);
    assert s == before + (text + x);
    assert (text + x)[0] == text[0];
    WsThen(before, text + x);
    AfterValue(after, tail, rest);
    assert (tail + rest)[0] == tail[0];
    hide SkipWs, ParseValue, Follows;
  }

  lemma MemberStep(m: Mems, text: string, tail: string, rest: string, depth: nat, got: seq<Member>)
    requires m.Mem? && AllWs(m.before) && ChsOk(m.key) && AllWs(m.colon) && AllWs(m.gap) && AllWs(m.after)
    requires text != "" && !IsWs(text[0]) && tail != "" && tail[0] in ",}"
    ensures Follows(m.after + (tail + rest))
    ensures var s := m.before + Quoted(m.key) + m.colon + ":" + m.gap + text + m.after + tail + rest;
      ParseMembers(s, depth, got) ==
      match ParseValue(text + (m.after + (tail + rest)), depth)
      case None => None
      case Some(p) =>
        if p.rest != m.after + (tail + rest) then ParseMembers(s, depth, got)
        else if tail[0] == ',' then ParseMembers((tail + rest)[1..], depth, got + [Member(AllMeant(m.key), p.v)])
        else Some(Parsed(JObject(got + [Member(AllMeant(m.key), p.v)]), (tail + rest)[1..]))
  {
    var s := m.before + Quoted(m.key) + m.colon + ":" + m.gap + text + m.after + tail + rest;
    var x := m.after + (tail + rest);
    var y := m.gap + (text + x);
    var z := m.colon + (":" + y);
    Nested(m.before, Quoted(m.key), m.colon, m.gap, text, m.after, tail, rest);
    WsThen(m.before, Quoted(m.key) + z);
    QuotedReadsBack(m.key, z);
    WsThen(m.colon, ":" + y);
    assert (":" + y)[1..] == y;
    assert (text + x)[0] == text[0];
    WsThen(m.gap, text + x);
    AfterValue(m.after, tail, rest);
    assert (tail + rest)[0] == tail[0];
    hide SkipWs, ParseValue, ParseString, Follows, Quoted, AllMeant;
  }

  lemma Nested(a: string, q: string, b: string, g: string, t: string, c: string, e: string, r: string)
    ensures a + q + b + ":" + g + t + c + e + r == a + (q + (b + (":" + (g + (t + (c + (e + r)))))))
  {}

  // A value of nesting n fits below depth.
  predicate Fits(depth: nat, n: nat) {
    depth + n <= JSON_MAX_DEPTH
  }

  lemma {:induction false} ValueReadsBack(d: Doc, rest: string, depth: nat)
    requires DocOk(d) && Follows(rest) && depth <= JSON_MAX_DEPTH
    ensures ParseValue(Text(d) + rest, depth) == if Fits(depth, Depth(d)) then Some(Parsed(Value(d), rest)) else None
    decreases d, 0
  {
    hide ParseValue, ParseItems, ParseMembers, Text, ItemsText, MemsText, AllMeant;
    match d
    case DArray(pad, items) =>
      if depth < JSON_MAX_DEPTH && items.Item? {
        ItemsReadBack(items, rest, depth + 1, []);
        assert [] + Values(items) == Values(items);
      }
      ArrayStep(pad, items, rest, depth);
    case DObject(pad, members) =>
      if depth < JSON_MAX_DEPTH && members.Mem? {
        MembersReadBack(members, rest, depth + 1, []);
        assert [] + Members(members) == Members(members);
      }
      ObjectStep(pad, members, rest, depth);
    case _ => ScalarReadsBack(d, rest, depth);
  }

  // An opening bracket, and what comes after it.
  lemma Opens(t: string, depth: nat)
    ensures ParseValue("[" + t, depth) ==
      if depth >= JSON_MAX_DEPTH then None
      else if SkipWs(t) != "" && SkipWs(t)[0] == ']' then Some(Parsed(JArray([]), SkipWs(t)[1..]))
      else ParseItems(SkipWs(t), depth + 1, [])
    ensures ParseValue("{" + t, depth) ==
      if depth >= JSON_MAX_DEPTH then None
      else if SkipWs(t) != "" && SkipWs(t)[0] == '}' then Some(Parsed(JObject([]), SkipWs(t)[1..]))
      else ParseMembers(SkipWs(t), depth + 1, [])
  {
    hide SkipWs, ParseItems, ParseMembers;
    assert ("[" + t)[1..] == t && ("{" + t)[1..] == t;
  }

  lemma ClosesAtOnce(pad: string, bracket: string, rest: string)
    requires AllWs(pad) && |bracket| == 1 && !IsWs(bracket[0])
    ensures var t := SkipWs(pad + bracket + rest); t != "" && t[0] == bracket[0] && t[1..] == rest
  {
    assert pad + bracket + rest == pad + (bracket + rest);
    WsThen(pad, bracket + rest);
    hide SkipWs;
  }

  lemma Opened(bracket: string, t: string, rest: string)
    ensures bracket + t + rest == bracket + (t + rest)
  {}

  // An array's brackets around what its loop makes of the rest.
  lemma ArrayStep(pad: string, items: Items, rest: string, depth: nat)
    requires AllWs(pad) && ItemsOk(items)
    ensures ParseValue(Text(DArray(pad, items)) + rest, depth) ==
      if depth >= JSON_MAX_DEPTH then None
      else if items.NoItem? then Some(Parsed(JArray([]), rest))
      else ParseItems(ItemsText(items) + rest, depth + 1, [])
  {
    var t := if items.NoItem? then pad + "]" else ItemsText(items);
    assert Text(DArray(pad, items)) == "[" + t;
    hide SkipWs, ItemsText, ParseItems, ParseValue, Text;
    Opened("[", t, rest);
    Opens(t + rest, depth);
    if items.NoItem? {
      ClosesAtOnce(pad, "]", rest);
    } else {
      LoopsSkip(t + rest, depth + 1, [], []);
      ItemsStart(items, rest);
    }
  }

  lemma ObjectStep(pad: string, ms: Mems, rest: string, depth: nat)
    requires AllWs(pad) && MemsOk(ms)
    ensures ParseValue(Text(DObject(pad, ms)) + rest, depth) ==
      if depth >= JSON_MAX_DEPTH then None
      else if ms.NoMem? then Some(Parsed(JObject([]), rest))
      else ParseMembers(MemsText(ms) + rest, depth + 1, [])
  {
    var t := if ms.NoMem? then pad + "}" else MemsText(ms);
    assert Text(DObject(pad, ms)) == "{" + t;
    hide SkipWs, MemsText, ParseMembers, ParseValue, Text;
    Opened("{", t, rest);
    Opens(t + rest, depth);
    if ms.NoMem? {
      ClosesAtOnce(pad, "}", rest);
    } else {
      LoopsSkip(t + rest, depth + 1, [], []);
      MemsStart(ms, rest);
    }
  }

  lemma ItemsStart(i: Items, rest: string)
    requires ItemsOk(i) && i.Item?
    ensures SkipWs(ItemsText(i) + rest) != "" && SkipWs(ItemsText(i) + rest)[0] != ']'
  {
    TextStarts(i.doc);
    var tail := if i.more.NoItem? then "]" else "," + ItemsText(i.more);
    var x := Text(i.doc) + (i.after + (tail + rest));
    ItemsTextUnfolds(i, rest);
    Regroup(i.before, Text(i.doc), i.after, tail, rest);
    assert x[0] == Text(i.doc)[0];
    hide Text, ItemsText;
    WsThen(i.before, x);
  }

  lemma MemsStart(m: Mems, rest: string)
    requires MemsOk(m) && m.Mem?
    ensures SkipWs(MemsText(m) + rest) != "" && SkipWs(MemsText(m) + rest)[0] != '}'
  {
    var tail := if m.more.NoMem? then "}" else "," + MemsText(m.more);
    MemsTextUnfolds(m, rest);
    Nested(m.before, Quoted(m.key), m.colon, m.gap, Text(m.doc), m.after, tail, rest);
    var x := Quoted(m.key) + (m.colon + (":" + (m.gap + (Text(m.doc) + (m.after + (tail + rest))))));
    assert x[0] == '"';
    hide Text, MemsText, Quoted;
    WsThen(m.before, x);
  }

  lemma Regroup(a: string, b: string, c: string, d: string, e: string)
    ensures a + b + c + d + e == a + (b + (c + (d + e)))
  {}

  lemma DropFirst(sep: string, x: string, rest: string)
    requires |sep| == 1
    ensures (sep + x + rest)[1..] == x + rest && sep + "" == sep
  {}

  // What one item adds to the text.
  lemma ItemsTextUnfolds(i: Items, rest: string)
    requires i.Item?
    ensures var tail := if i.more.NoItem? then "]" else "," + ItemsText(i.more);
      ItemsText(i) + rest == i.before + Text(i.doc) + i.after + tail + rest &&
      (tail + rest)[1..] == (if i.more.NoItem? then "" else ItemsText(i.more)) + rest
  {
    var more := if i.more.NoItem? then "" else ItemsText(i.more);
    var sep := if i.more.NoItem? then "]" else ",";
    DropFirst(sep, more, rest);
    var tail := if i.more.NoItem? then "]" else "," + ItemsText(i.more);
    assert ItemsText(i) == i.before + Text(i.doc) + i.after + tail;
    hide *;
    assert tail == sep + more;
  }

  lemma MemsTextUnfolds(m: Mems, rest: string)
    requires m.Mem?
    ensures var tail := if m.more.NoMem? then "}" else "," + MemsText(m.more);
      MemsText(m) + rest == m.before + Quoted(m.key) + m.colon + ":" + m.gap + Text(m.doc) + m.after + tail + rest &&
      (tail + rest)[1..] == (if m.more.NoMem? then "" else MemsText(m.more)) + rest
  {
    var more := if m.more.NoMem? then "" else MemsText(m.more);
    var sep := if m.more.NoMem? then "}" else ",";
    DropFirst(sep, more, rest);
    var tail := if m.more.NoMem? then "}" else "," + MemsText(m.more);
    assert MemsText(m) == m.before + Quoted(m.key) + m.colon + ":" + m.gap + Text(m.doc) + m.after + tail;
    hide *;
    assert tail == sep + more;
  }

  lemma Extended<T>(got: seq<T>, v: T, more: seq<T>, all: seq<T>)
    requires all == [v] + more
    ensures got + all == got + [v] + more && (more == [] ==> got + all == got + [v])
  {}

  lemma {:induction false} ItemsReadBack(i: Items, rest: string, depth: nat, got: seq<Json>)
    requires ItemsOk(i) && i.Item? && depth <= JSON_MAX_DEPTH
    ensures ParseItems(ItemsText(i) + rest, depth, got) ==
      if Fits(depth, ItemsDepth(i)) then Some(Parsed(JArray(got + Values(i)), rest)) else None
    decreases i, 1
  {
    var text, tail := Text(i.doc), if i.more.NoItem? then "]" else "," + ItemsText(i.more);
    TextStarts(i.doc);
    ItemsTextUnfolds(i, rest);
    Extended(got, Value(i.doc), Values(i.more), Values(i));
    assert "" + rest == rest;
    assert i.more.NoItem? ==> Values(i.more) == [] && ItemsDepth(i.more) == 0;
    assert ItemsDepth(i) == Max(Depth(i.doc), ItemsDepth(i.more));
    hide ParseItems, ParseValue, Text, Value, Depth, ItemsText, ItemsDepth, Values, Follows;
    ItemStep(i.before, text, i.after, tail, rest, depth, got);
    ValueReadsBack(i.doc, i.after + (tail + rest), depth);
    if i.more.Item? { ItemsReadBack(i.more, rest, depth, got + [Value(i.doc)]); }
  }

  lemma {:induction false} MembersReadBack(m: Mems, rest: string, depth: nat, got: seq<Member>)
    requires MemsOk(m) && m.Mem? && depth <= JSON_MAX_DEPTH
    ensures ParseMembers(MemsText(m) + rest, depth, got) ==
      if Fits(depth, MemsDepth(m)) then Some(Parsed(JObject(got + Members(m)), rest)) else None
    decreases m, 1
  {
    var text, tail := Text(m.doc), if m.more.NoMem? then "}" else "," + MemsText(m.more);
    var first := Member(AllMeant(m.key), Value(m.doc));
    TextStarts(m.doc);
    MemsTextUnfolds(m, rest);
    Extended(got, first, Members(m.more), Members(m));
    assert "" + rest == rest;
    assert m.more.NoMem? ==> Members(m.more) == [] && MemsDepth(m.more) == 0;
    assert MemsDepth(m) == Max(Depth(m.doc), MemsDepth(m.more));
    hide ParseMembers, ParseValue, Text, Value, Depth, Quoted, MemsText, MemsDepth, Members, AllMeant, Follows;
    MemberStep(m, text, tail, rest, depth, got);
    ValueReadsBack(m.doc, m.after + (tail + rest), depth);
    if m.more.Mem? { MembersReadBack(m.more, rest, depth, got + [first]); }
  }

  /** The round trip: a value written in any legal way - white space anywhere it is allowed, each character of
      a string raw or escaped - is read back if it nests no deeper than 64, and refused if it does. */
  lemma DocumentReadsBack(d: Doc, before: string, after: string)
    requires DocOk(d) && AllWs(before) && AllWs(after)
    ensures Parse(before + Text(d) + after) == if Depth(d) <= 64 then Some(Value(d)) else None
  {
    TextStarts(d);
    if after != "" { assert after[0] in after; }
    hide Text, Value, Depth, ParseValue, SkipWs, DocOk;
    ValueReadsBack(d, after, 0);
    var all := Text(d) + after;
    assert all[0] == Text(d)[0] && before + Text(d) + after == before + all && after + "" == after;
    WsThen(before, all);
    WsThen(after, "");
  }

  // ---- every value can be written ---------------------------------------------------------------------------------

  // Numbers by their tokens, and strings without NUL, which C strings cannot hold.
  predicate JsonOk(v: Json) {
    match v
    case JNumber(token) => IsNumber(token)
    case JString(s) => '\0' !in s
    case JArray(items) => forall k | 0 <= k < |items| :: JsonOk(items[k])
    case JObject(ms) => forall k | 0 <= k < |ms| :: '\0' !in ms[k].key && JsonOk(ms[k].val)
    case _ => true
  }

  // Only what must be escaped is: quotes and backslashes by a letter, control characters by their number.
  function PlainCh(c: char): Ch
    requires c != '\0'
  {
    if c == '"' || c == '\\' then Short(c)
    else if c < ' ' then Unicode(['0', '0', HexDigit(c as nat / 16), HexDigit(c as nat % 16)])
    else Raw(c)
  }

  function HexDigit(n: nat): char
    requires n < 16
  {
    if n < 10 then '0' + n as char else 'a' + (n - 10) as char
  }

  lemma PlainChReadsBack(c: char)
    requires c != '\0'
    ensures ChOk(PlainCh(c)) && Meant(PlainCh(c)) == [c]
  {
    if c < ' ' {
      var n := c as nat;
      assert HexVal(HexDigit(n / 16)) == Some(n / 16) && HexVal(HexDigit(n % 16)) == Some(n % 16);
      assert Hex4(['0', '0', HexDigit(n / 16), HexDigit(n % 16)]) == n;
      assert n as char == c;
    }
  }

  function PlainChs(s: string): seq<Ch>
    requires '\0' !in s
  {
    if s == "" then [] else [PlainCh(s[0])] + PlainChs(s[1..])
  }

  lemma {:induction false} PlainChsReadBack(s: string)
    requires '\0' !in s
    ensures ChsOk(PlainChs(s)) && AllMeant(PlainChs(s)) == s
    decreases |s|
  {
    if s != "" {
      hide PlainCh, Meant, ChOk;
      PlainChReadsBack(s[0]);
      PlainChsReadBack(s[1..]);
      assert s == [s[0]] + s[1..];
    }
  }

  function Plain(v: Json): Doc
    requires JsonOk(v)
  {
    match v
    case JNull => DNull
    case JBool(b) => DBool(b)
    case JNumber(token) => DNumber(token)
    case JString(s) => DString(PlainChs(s))
    case JArray(items) => DArray("", PlainItems(items))
    case JObject(ms) => DObject("", PlainMems(ms))
  }

  function PlainItems(items: seq<Json>): Items
    requires forall k | 0 <= k < |items| :: JsonOk(items[k])
  {
    if items == [] then NoItem else Item("", Plain(items[0]), "", PlainItems(items[1..]))
  }

  function PlainMems(ms: seq<Member>): Mems
    requires forall k | 0 <= k < |ms| :: '\0' !in ms[k].key && JsonOk(ms[k].val)
  {
    if ms == [] then NoMem else Mem("", PlainChs(ms[0].key), "", "", Plain(ms[0].val), "", PlainMems(ms[1..]))
  }

  lemma {:induction false} PlainReadsBack(v: Json)
    requires JsonOk(v)
    ensures DocOk(Plain(v)) && Value(Plain(v)) == v
  {
    match v
    case JString(s) => PlainChsReadBack(s);
    case JArray(items) => PlainItemsReadBack(items);
    case JObject(ms) => PlainMemsReadBack(ms);
    case _ =>
  }

  lemma {:induction false} PlainItemsReadBack(items: seq<Json>)
    requires forall k | 0 <= k < |items| :: JsonOk(items[k])
    ensures ItemsOk(PlainItems(items)) && Values(PlainItems(items)) == items
  {
    if items != [] {
      PlainReadsBack(items[0]);
      PlainItemsReadBack(items[1..]);
      assert items == [items[0]] + items[1..];
    }
  }

  lemma {:induction false} PlainMemsReadBack(ms: seq<Member>)
    requires forall k | 0 <= k < |ms| :: '\0' !in ms[k].key && JsonOk(ms[k].val)
    ensures MemsOk(PlainMems(ms)) && Members(PlainMems(ms)) == ms
  {
    if ms != [] {
      PlainChsReadBack(ms[0].key);
      PlainReadsBack(ms[0].val);
      PlainMemsReadBack(ms[1..]);
      assert ms == [ms[0]] + ms[1..];
    }
  }

  lemma Alone(text: string)
    ensures "" + text + "" == text
  {}

  /** Every value can be written, and what is written for it is read back or, nested too deep, refused. */
  lemma EveryValueReadsBack(v: Json)
    requires JsonOk(v)
    ensures Parse(Text(Plain(v))) == if Depth(Plain(v)) <= 64 then Some(v) else None
  {
    hide Text, Value, Depth, Plain, Parse, DocOk, JsonOk;
    PlainReadsBack(v);
    Alone(Text(Plain(v)));
    DocumentReadsBack(Plain(v), "", "");
  }
}
