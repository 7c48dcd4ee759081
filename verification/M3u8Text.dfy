/** src/m3u8.c, from the text of a playlist: its lines split, trimmed and told apart. The value strtod gives
    a duration is a parameter. */
module M3u8Text {
  import opened Prelude
  import opened M3u8Attrs
  import opened M3u8
  import M3u8Keys
  import UrlUtil

  const MAX_URL := 2048

  // ---- numbers -------------------------------------------------------------------------------------------

  predicate IsDigit(c: char) {
    '0' <= c <= '9'
  }

  // The value of the digits at the front of a string, after those before it.
  function Decimal(s: string, before: nat): nat {
    if s == "" || !IsDigit(s[0]) then before else Decimal(s[1..], 10 * before + (s[0] as nat - '0' as nat))
  }

  // The number of an EXT-X-MEDIA-SEQUENCE: what strtoll reads, if it reads anything, it is in range and not
  // negative.
  function Sequence(args: string): (r: Option<int>)
    ensures r.Some? ==> 0 <= r.value <= LLONG_MAX
  {
    var s := args[Run(args, " \t\n\U{000b}\U{000c}\r")..];
    var signed := s != "" && s[0] in "+-";
    var digits := if signed then s[1..] else s;
    if digits == "" || !IsDigit(digits[0]) then None
    else
      var n := Decimal(digits, 0);
      if signed && s[0] == '-' then if n == 0 then Some(0) else None
      else if n <= LLONG_MAX then Some(n)
      else None
  }

  // ---- lines ----------------------------------------------------------------------------------------------

  function RawLines(text: string): seq<string>
    decreases |text|
  {
    if text == "" then []
    else
      var n := Until(text, "\n");
      [text[..n]] + if n == |text| then [] else RawLines(text[n + 1..])
  }

  function TrimEnd(s: string): (r: string)
    ensures r <= s && (r != "" ==> r[|r| - 1] !in " \t\r")
  {
    if s != "" && s[|s| - 1] in " \t\r" then TrimEnd(s[..|s| - 1]) else s
  }

  function Trimmed(raw: string): string {
    var s := TrimEnd(raw);
    s[Run(s, " \t")..]
  }

  predicate Starts(line: string, front: string) {
    front <= line
  }

  // tag_match: the tag alone, or followed by a colon.
  function TagArgs(line: string, tag: string): Option<string> {
    if !Starts(line, tag) then None
    else if |line| == |tag| then Some("")
    else if line[|tag|] == ':' then Some(line[|tag| + 1..])
    else None
  }

  function TagLine(base: string, num: string -> real, line: string): Line {
    var inf, stream, target := TagArgs(line, "#EXTINF"), TagArgs(line, "#EXT-X-STREAM-INF"), TagArgs(line, "#EXT-X-TARGETDURATION");
    var number, disc, end := TagArgs(line, "#EXT-X-MEDIA-SEQUENCE"), TagArgs(line, "#EXT-X-DISCONTINUITY"), TagArgs(line, "#EXT-X-ENDLIST");
    var key := TagArgs(line, "#EXT-X-KEY");
    if inf.Some? then ExtInf(num(inf.value))
    else if stream.Some? then StreamInf
    else if target.Some? then TargetDuration(num(target.value))
    else if number.Some? then MediaSequence(Sequence(number.value))
    else if disc.Some? then Discontinuity
    else if end.Some? then EndList
    else if key.Some? then M3u8Keys.KeyLine(base, M3u8Keys.KeyTextOf(Attrs(key.value)))
    else Other
  }

  function LineOf(base: string, num: string -> real, line: string): Line
    requires line != ""
  {
    if Starts(line, "#EXTM3U") then Header
    else if line[0] == '#' then TagLine(base, num, line)
    else Uri(UrlUtil.Fitting(base, line, MAX_URL))
  }

  // What one line of the text comes down to; a blank one, to nothing.
  function Read(base: string, num: string -> real, raw: string): seq<Line> {
    if '\0' in raw then [HasNul]
    else if Trimmed(raw) == "" then []
    else [LineOf(base, num, Trimmed(raw))]
  }

  function ReadAll(base: string, num: string -> real, raws: seq<string>): seq<Line> {
    if raws == [] then [] else Read(base, num, raws[0]) + ReadAll(base, num, raws[1..])
  }

  const BOM := "\U{00ef}\U{00bb}\U{00bf}"

  function Lines(base: string, num: string -> real, text: string): seq<Line> {
    ReadAll(base, num, RawLines(if Starts(text, BOM) then text[3..] else text))
  }

  // ---- the loops of m3u8_parse ---------------------------------------------------------------------------

  method DropTail(raw: string) returns (s: string)
    ensures s == TrimEnd(raw)
  {
    var l: nat := |raw|;
    assert raw[..l] == raw;
    while l > 0 && raw[l - 1] in " \t\r"
      invariant l <= |raw| && TrimEnd(raw) == TrimEnd(raw[..l])
    {
      assert raw[..l][..l - 1] == raw[..l - 1];
      l := l - 1;
    }
    s := raw[..l];
  }

  method Trim(raw: string) returns (line: string)
    ensures line == Trimmed(raw)
  {
    var s := DropTail(raw);
    hide TrimEnd;
    var i := 0;
    assert s[0..] == s;
    while i < |s| && s[i] in " \t"
      invariant i <= |s| && Run(s, " \t") == i + Run(s[i..], " \t")
    {
      assert s[i..][1..] == s[i + 1..];
      i := i + 1;
    }
    line := s[i..];
  }

  // tag_match, with strncmp
  method TagMatch(line: string, tag: string) returns (args: Option<string>)
    ensures args == TagArgs(line, tag)
  {
    if |line| < |tag| { return None; }
    for i := 0 to |tag|
      invariant line[..i] == tag[..i]
    {
      if line[i] != tag[i] { return None; }
    }
    args := if |line| == |tag| then Some("") else if line[|tag|] == ':' then Some(line[|tag| + 1..]) else None;
  }

  // The branches for the lines after the first.
  method ReadTag(base: string, num: string -> real, line: string) returns (l: Line)
    ensures l == TagLine(base, num, line)
  {
    hide M3u8Keys.KeyLine, M3u8Keys.KeyTextOf, Attrs, Sequence, TagArgs;
    var a := TagMatch(line, "#EXTINF");
    if a.Some? { return ExtInf(num(a.value)); }
    a := TagMatch(line, "#EXT-X-STREAM-INF");
    if a.Some? { return StreamInf; }
    a := TagMatch(line, "#EXT-X-TARGETDURATION");
    if a.Some? { return TargetDuration(num(a.value)); }
    a := TagMatch(line, "#EXT-X-MEDIA-SEQUENCE");
    if a.Some? { return MediaSequence(Sequence(a.value)); }
    a := TagMatch(line, "#EXT-X-DISCONTINUITY");
    if a.Some? { return Discontinuity; }
    a := TagMatch(line, "#EXT-X-ENDLIST");
    if a.Some? { return EndList; }
    a := TagMatch(line, "#EXT-X-KEY");
    if a.None? { return Other; }
    var k := M3u8Keys.Gather(a.value);
    l := M3u8Keys.Decide(base, k);
  }

  method ReadLine(base: string, num: string -> real, raw: string) returns (ls: seq<Line>)
    ensures ls == Read(base, num, raw)
  {
    hide UrlUtil.Fitting, TagLine, Trimmed;
    if '\0' in raw { return [HasNul]; }
    var line := Trim(raw);
    if line == "" { return []; }
    if "#EXTM3U" <= line { return [Header]; }
    if line[0] == '#' {
      var l := ReadTag(base, num, line);
      return [l];
    }
    var uri := UrlUtil.UrlResolve(base, line, MAX_URL);
    ls := [Uri(uri)];
  }

  // The text split at its newlines, line by line.
  method Split(base: string, num: string -> real, text: string) returns (lines: seq<Line>)
    ensures lines == Lines(base, num, text)
  {
    hide Read, ReadAll, RawLines, Lines, Until;
    LinesOf(base, num, text);
    var body := if BOM <= text then text[3..] else text;
    lines := [];
    var p := 0;
    assert body[0..] == body;
    while p < |body|
      invariant p <= |body|
      invariant ReadAll(base, num, RawLines(body)) == lines + ReadAll(base, num, RawLines(body[p..]))
    {
      var n := SkipTo(body, p, "\n");
      OneTurn(base, num, body, p, n);
      var ls := ReadLine(base, num, body[p..n]);
      p := if n < |body| then n + 1 else n;
      Joins(lines, ls, ReadAll(base, num, RawLines(body[p..])));
      lines := lines + ls;
    }
    assert body[p..] == "";
    Joins(lines, [], []);
  }

  lemma LinesOf(base: string, num: string -> real, text: string)
    ensures Lines(base, num, text) == ReadAll(base, num, RawLines(if BOM <= text then text[3..] else text))
    ensures ReadAll(base, num, RawLines("")) == []
  {}

  // One line off the front of what is left of a text.
  lemma OneTurn(base: string, num: string -> real, body: string, p: nat, n: nat)
    requires p < |body| && n == p + Until(body[p..], "\n")
    ensures n <= |body|
    ensures ReadAll(base, num, RawLines(body[p..])) ==
      Read(base, num, body[p..n]) + ReadAll(base, num, RawLines(body[if n < |body| then n + 1 else n..]))
  {
    hide Read, ReadAll, RawLines, Until;
    OneMore(body, p, n);
    RawStep(base, num, body[p..]);
    assert n < |body| ==> body[p..][n - p + 1..] == body[n + 1..];
    assert n == |body| ==> body[n..] == "";
  }

  lemma RawUnfolds(rest: string)
    requires rest != ""
    ensures var n := Until(rest, "\n");
      RawLines(rest) == [rest[..n]] + RawLines(if n < |rest| then rest[n + 1..] else "")
  {
    hide Until;
  }

  lemma ReadFirst(base: string, num: string -> real, raw: string, raws: seq<string>)
    ensures ReadAll(base, num, [raw] + raws) == Read(base, num, raw) + ReadAll(base, num, raws)
  {
    hide Read;
    assert ([raw] + raws)[1..] == raws;
  }

  lemma RawStep(base: string, num: string -> real, rest: string)
    requires rest != ""
    ensures var n := Until(rest, "\n");
      ReadAll(base, num, RawLines(rest)) ==
        Read(base, num, rest[..n]) + ReadAll(base, num, RawLines(if n < |rest| then rest[n + 1..] else ""))
  {
    hide *;
    var n := Until(rest, "\n");
    RawUnfolds(rest);
    ReadFirst(base, num, rest[..n], RawLines(if n < |rest| then rest[n + 1..] else ""));
  }

  lemma Joins(a: seq<Line>, b: seq<Line>, c: seq<Line>)
    ensures a + b + c == a + (b + c) && a + [] == a
  {}

  /** m3u8_parse, on a text. */
  method ParseText(base: string, num: string -> real, text: string) returns (r: Option<Media>)
    ensures var lines := Lines(base, num, text);
      r == if IsPlaylist(lines) then Some(MediaOf(lines)) else None
  {
    hide Lines, M3u8.Segments, M3u8.Variants, M3u8.KindOf, M3u8.TargetOf, M3u8.Ended, M3u8.IsPlaylist;
    var lines := Split(base, num, text);
    NumbersOk(base, num, text);
    r := M3u8.Parse(lines);
  }

  function MediaOf(lines: seq<Line>): Media {
    Media(KindOf(lines, |lines|), Segments(lines, |lines|), Variants(lines, |lines|), MediaNumber(lines, |lines|),
          TargetOf(lines, |lines|), Ended(lines, |lines|))
  }

  lemma {:induction false} AllNumbersOk(base: string, num: string -> real, raws: seq<string>)
    ensures forall k | 0 <= k < |ReadAll(base, num, raws)| :: LineOk(ReadAll(base, num, raws)[k])
  {
    if raws != [] {
      AllNumbersOk(base, num, raws[1..]);
      NumberOk(base, num, raws[0]);
      hide Read;
    }
  }

  lemma NumberOk(base: string, num: string -> real, raw: string)
    ensures forall k | 0 <= k < |Read(base, num, raw)| :: LineOk(Read(base, num, raw)[k])
  {
    hide TagArgs, Sequence, Trimmed, M3u8Keys.KeyTextOf, UrlUtil.Fitting;
  }

  lemma NumbersOk(base: string, num: string -> real, text: string)
    ensures forall k | 0 <= k < |Lines(base, num, text)| :: LineOk(Lines(base, num, text)[k])
  {
    AllNumbersOk(base, num, RawLines(if Starts(text, BOM) then text[3..] else text));
    hide ReadAll;
  }
}
