/** src/m3u8.c: playlists written out as sections 4.1 and 4.3 of RFC 8216 lay them down, with any spacing and
    either line ending, and what m3u8_parse reads in them. */
module M3u8ReadBack {
  import opened Prelude
  import opened M3u8Attrs
  import opened M3u8
  import opened M3u8Text
  import K = M3u8Keys
  import UrlUtil

  // ---- rows of text --------------------------------------------------------------------------------------

  // A line with the spaces around it, and a carriage return or not.
  datatype Row = Row(left: string, body: string, right: string)

  predicate AllIn(s: string, among: string) {
    forall k | 0 <= k < |s| :: s[k] in among
  }

  predicate Tight(s: string) {
    && (forall k | 0 <= k < |s| :: s[k] != '\n' && s[k] != '\0')
    && (s != "" ==> s[0] !in " \t" && s[|s| - 1] !in " \t\r")
  }

  predicate RowOk(r: Row) {
    AllIn(r.left, " \t") && AllIn(r.right, " \t\r") && Tight(r.body)
  }

  function RowText(r: Row): string {
    r.left + r.body + r.right
  }

  function Print(rows: seq<Row>): string {
    if rows == [] then "" else RowText(rows[0]) + "\n" + Print(rows[1..])
  }

  // The lines of those that are not blank.
  function Bodies(base: string, num: string -> real, rows: seq<Row>): seq<Line> {
    if rows == [] then []
    else (if rows[0].body == "" then [] else [LineOf(base, num, rows[0].body)]) + Bodies(base, num, rows[1..])
  }

  lemma {:induction false} TrimEndIs(s: string, right: string)
    requires AllIn(right, " \t\r") && (s != "" ==> s[|s| - 1] !in " \t\r")
    ensures TrimEnd(s + right) == s
  {
    if right == "" {
      assert s + right == s;
    } else {
      var init := right[..|right| - 1];
      assert (s + right)[..|s + right| - 1] == s + init;
      TrimEndIs(s, init);
    }
  }

  lemma {:induction false} RunIs(left: string, s: string)
    requires AllIn(left, " \t") && (s != "" ==> s[0] !in " \t")
    ensures Run(left + s, " \t") == |left|
  {
    if left == "" {
      assert left + s == s;
    } else {
      assert (left + s)[1..] == left[1..] + s;
      RunIs(left[1..], s);
    }
  }

  lemma BlankTrims(s: string)
    requires AllIn(s, " \t\r")
    ensures TrimEnd(s) == ""
  {
    assert "" + s == s;
    TrimEndIs("", s);
  }

  lemma Among(a: string, b: string, c: string, ch: char)
    requires ch !in a && ch !in b && ch !in c
    ensures ch !in a + b + c
  {}

  lemma NotIn(r: Row)
    requires RowOk(r)
    ensures '\n' !in r.left && '\n' !in r.body && '\n' !in r.right
    ensures '\0' !in r.left && '\0' !in r.body && '\0' !in r.right
  {}

  lemma RowTrims(r: Row)
    requires RowOk(r)
    ensures Trimmed(RowText(r)) == r.body && '\n' !in RowText(r) && '\0' !in RowText(r)
  {
    NotIn(r);
    Among(r.left, r.body, r.right, '\n');
    Among(r.left, r.body, r.right, '\0');
    if r.body == "" {
      assert RowText(r) == r.left + r.right;
      BlankTrims(r.left + r.right);
    } else {
      var front := r.left + r.body;
      assert front[|front| - 1] == r.body[|r.body| - 1];
      TrimEndIs(front, r.right);
      RunIs(r.left, r.body);
      hide AllIn, Tight, TrimEnd, Run;
      assert front[|r.left|..] == r.body;
    }
  }

  lemma RawFirst(first: string, rest: string)
    requires '\n' !in first
    ensures RawLines(first + "\n" + rest) == [first] + RawLines(rest)
  {
    var text := first + "\n" + rest;
    assert forall k | 0 <= k < |first| :: text[k] == first[k] && first[k] in first;
    UntilIs(text, "\n", |first|);
    assert text[..|first|] == first && text[|first| + 1..] == rest;
  }

  lemma {:induction false} RowsReadBack(base: string, num: string -> real, rows: seq<Row>)
    requires forall k | 0 <= k < |rows| :: RowOk(rows[k])
    ensures ReadAll(base, num, RawLines(Print(rows))) == Bodies(base, num, rows)
  {
    if rows != [] {
      RowTrims(rows[0]);
      RawFirst(RowText(rows[0]), Print(rows[1..]));
      RowsReadBack(base, num, rows[1..]);
      var raws := RawLines(Print(rows));
      assert raws[0] == RowText(rows[0]) && raws[1..] == RawLines(Print(rows[1..]));
      hide RawLines, LineOf, Print;
    }
  }

  // A newline at the end makes no difference.
  lemma {:induction false} LastNewline(base: string, num: string -> real, text: string)
    ensures ReadAll(base, num, RawLines(text + "\n")) == ReadAll(base, num, RawLines(text))
    decreases |text|
  {
    hide Read, ReadAll, RawLines, Until;
    var n := Until(text, "\n");
    var all := text + "\n";
    assert forall k | 0 <= k < n :: all[k] == text[k];
    UntilIs(all, "\n", n);
    assert all[..n] == text[..n];
    RawStep(base, num, all);
    if n == |text| {
      assert all[n + 1..] == "";
      NothingRead(base, num);
      if text != "" { RawStep(base, num, text); }
      assert Read(base, num, text[..n]) + [] == Read(base, num, text[..n]);
    } else {
      assert all[n + 1..] == text[n + 1..] + "\n";
      RawStep(base, num, text);
      LastNewline(base, num, text[n + 1..]);
    }
  }

  lemma NothingRead(base: string, num: string -> real)
    ensures ReadAll(base, num, RawLines("")) == [] && Read(base, num, "") == []
  {}

  /** Whatever the spacing, with or without a byte order mark and a newline at the end, the text of a playlist
      reads as its lines, blank ones left out. */
  lemma TextReadsBack(base: string, num: string -> real, rows: seq<Row>, text: string, bom: bool)
    requires forall k | 0 <= k < |rows| :: RowOk(rows[k])
    requires text == Print(rows) || text + "\n" == Print(rows)
    requires !bom ==> !Starts(text, "\U{00ef}\U{00bb}\U{00bf}")
    ensures Lines(base, num, (if bom then "\U{00ef}\U{00bb}\U{00bf}" else "") + text) == Bodies(base, num, rows)
  {
    RowsReadBack(base, num, rows);
    LastNewline(base, num, text);
    var all := (if bom then BOM else "") + text;
    assert bom ==> all[3..] == text && Starts(all, BOM);
    assert !bom ==> all == text;
    hide RawLines, ReadAll, Bodies;
  }

  // ---- tags ------------------------------------------------------------------------------------------------

  datatype Item =
    | HeaderItem
    | InfItem(args: string)
    | StreamItem(args: string)
    | TargetItem(args: string)
    | NumberItem(n: nat)
    | DiscItem
    | EndItem
    | KeyItem(ws: seq<Written>)
    | UriItem(uri: string)

  function PrintDec(n: nat): (s: string)
    ensures s != "" && forall k | 0 <= k < |s| :: IsDigit(s[k])
  {
    (if n < 10 then "" else PrintDec(n / 10)) + [(n % 10 + '0' as nat) as char]
  }

  function ItemText(i: Item): string {
    match i
    case HeaderItem => "#EXTM3U"
    case InfItem(args) => "#EXTINF" + ":" + args
    case StreamItem(args) => "#EXT-X-STREAM-INF" + ":" + args
    case TargetItem(args) => "#EXT-X-TARGETDURATION" + ":" + args
    case NumberItem(n) => "#EXT-X-MEDIA-SEQUENCE" + ":" + PrintDec(n)
    case DiscItem => "#EXT-X-DISCONTINUITY"
    case EndItem => "#EXT-X-ENDLIST"
    case KeyItem(ws) => "#EXT-X-KEY" + ":" + PrintAll(ws)
    case UriItem(uri) => uri
  }

  predicate ItemOk(i: Item) {
    match i
    case NumberItem(n) => n <= 0x7FFF_FFFF_FFFF_FFFF
    case KeyItem(ws) => forall k | 0 <= k < |ws| :: WrittenOk(ws[k])
    case UriItem(uri) => uri != "" && uri[0] != '#'
    case _ => true
  }

  function ItemLine(base: string, num: string -> real, i: Item): Line {
    match i
    case HeaderItem => Header
    case InfItem(args) => ExtInf(num(args))
    case StreamItem(_) => StreamInf
    case TargetItem(args) => TargetDuration(num(args))
    case NumberItem(n) => MediaSequence(Some(n))
    case DiscItem => Discontinuity
    case EndItem => EndList
    case KeyItem(ws) => K.KeyLine(base, K.KeyTextOf(K.Written(ws)))
    case UriItem(uri) => Uri(UrlUtil.Fitting(base, uri, MAX_URL))
  }

  lemma {:induction false} DecimalOf(s: string, t: string, before: nat)
    requires forall k | 0 <= k < |s| :: IsDigit(s[k])
    ensures Decimal(s + t, before) == Decimal(t, Decimal(s, before))
  {
    if s == "" {
      assert s + t == t;
    } else {
      assert (s + t)[1..] == s[1..] + t;
      DecimalOf(s[1..], t, 10 * before + (s[0] as nat - '0' as nat));
    }
  }

  lemma {:induction false} DecReadsBack(n: nat)
    ensures Decimal(PrintDec(n), 0) == n
  {
    var last := [(n % 10 + '0' as nat) as char];
    assert last[1..] == "";
    if n < 10 {
      assert PrintDec(n) == last;
    } else {
      DecReadsBack(n / 10);
      DecimalOf(PrintDec(n / 10), last, 0);
    }
  }

  lemma SequenceReadsBack(n: nat)
    requires n <= LLONG_MAX
    ensures Sequence(PrintDec(n)) == Some(n)
  {
    DecReadsBack(n);
    var s := PrintDec(n);
    assert IsDigit(s[0]) && s[0] !in " \t\n\U{000b}\U{000c}\r";
    assert s[0..] == s;
    hide PrintDec, Decimal;
  }

  lemma TagReads(tag: string, args: string)
    ensures TagArgs(tag + ":" + args, tag) == Some(args) && TagArgs(tag, tag) == Some("")
  {
    var line := tag + ":" + args;
    assert line[..|tag|] == tag && line[|tag| + 1..] == args;
  }

  // Two tags that differ at some place.
  lemma OtherTag(line: string, tag: string, other: string, k: nat)
    requires tag <= line && k < |tag| && k < |other| && tag[k] != other[k]
    ensures TagArgs(line, other).None? && !Starts(line, other)
  {
    assert line[k] == tag[k];
  }

  lemma NotHeader(line: string, tag: string)
    requires tag <= line && |tag| > 4 && tag[4] != 'M'
    ensures !Starts(line, "#EXTM3U")
  {
    OtherTag(line, tag, "#EXTM3U", 4);
  }

  lemma InfReads(base: string, num: string -> real, args: string)
    ensures LineOf(base, num, "#EXTINF" + ":" + args) == ExtInf(num(args))
  {
    TagReads("#EXTINF", args);
    NotHeader("#EXTINF" + ":" + args, "#EXTINF");
    hide TagArgs;
  }

  lemma StreamReads(base: string, num: string -> real, args: string)
    ensures LineOf(base, num, "#EXT-X-STREAM-INF" + ":" + args) == StreamInf
  {
    var tag := "#EXT-X-STREAM-INF";
    var line := tag + ":" + args;
    TagReads(tag, args);
    NotHeader(line, tag);
    OtherTag(line, tag, "#EXTINF", 4);
    hide TagArgs;
  }

  lemma TargetReads(base: string, num: string -> real, args: string)
    ensures LineOf(base, num, "#EXT-X-TARGETDURATION" + ":" + args) == TargetDuration(num(args))
  {
    var tag := "#EXT-X-TARGETDURATION";
    var line := tag + ":" + args;
    TagReads(tag, args);
    NotHeader(line, tag);
    OtherTag(line, tag, "#EXTINF", 4);
    OtherTag(line, tag, "#EXT-X-STREAM-INF", 7);
    hide TagArgs;
  }

  lemma NumberTag(base: string, num: string -> real, line: string, args: string)
    requires "#EXT-X-MEDIA-SEQUENCE" <= line && TagArgs(line, "#EXT-X-MEDIA-SEQUENCE") == Some(args)
    ensures LineOf(base, num, line) == MediaSequence(Sequence(args))
  {
    hide TagArgs, Starts, Sequence, Attrs, K.KeyTextOf, K.KeyLine, UrlUtil.Fitting;
    var tag := "#EXT-X-MEDIA-SEQUENCE";
    NotHeader(line, tag);
    OtherTag(line, tag, "#EXTINF", 4);
    OtherTag(line, tag, "#EXT-X-STREAM-INF", 7);
    OtherTag(line, tag, "#EXT-X-TARGETDURATION", 7);
  }

  lemma NumberReads(base: string, num: string -> real, n: nat)
    requires n <= LLONG_MAX
    ensures LineOf(base, num, "#EXT-X-MEDIA-SEQUENCE" + ":" + PrintDec(n)) == MediaSequence(Some(n))
  {
    hide *;
    var tag := "#EXT-X-MEDIA-SEQUENCE";
    TagReads(tag, PrintDec(n));
    NumberTag(base, num, tag + ":" + PrintDec(n), PrintDec(n));
    SequenceReadsBack(n);
  }

  lemma DiscReads(base: string, num: string -> real)
    ensures LineOf(base, num, "#EXT-X-DISCONTINUITY") == Discontinuity
  {
    var tag := "#EXT-X-DISCONTINUITY";
    TagReads(tag, "");
    NotHeader(tag, tag);
    OtherTag(tag, tag, "#EXTINF", 4);
    OtherTag(tag, tag, "#EXT-X-STREAM-INF", 7);
    OtherTag(tag, tag, "#EXT-X-TARGETDURATION", 7);
    OtherTag(tag, tag, "#EXT-X-MEDIA-SEQUENCE", 7);
    hide TagArgs;
  }

  lemma EndReads(base: string, num: string -> real)
    ensures LineOf(base, num, "#EXT-X-ENDLIST") == EndList
  {
    var tag := "#EXT-X-ENDLIST";
    TagReads(tag, "");
    NotHeader(tag, tag);
    OtherTag(tag, tag, "#EXTINF", 4);
    OtherTag(tag, tag, "#EXT-X-STREAM-INF", 7);
    OtherTag(tag, tag, "#EXT-X-TARGETDURATION", 7);
    OtherTag(tag, tag, "#EXT-X-MEDIA-SEQUENCE", 7);
    OtherTag(tag, tag, "#EXT-X-DISCONTINUITY", 7);
    hide TagArgs;
  }

  lemma OnlyKey(line: string)
    requires "#EXT-X-KEY" <= line
    ensures TagArgs(line, "#EXTINF").None? && TagArgs(line, "#EXT-X-STREAM-INF").None?
    ensures TagArgs(line, "#EXT-X-TARGETDURATION").None? && TagArgs(line, "#EXT-X-MEDIA-SEQUENCE").None?
    ensures TagArgs(line, "#EXT-X-DISCONTINUITY").None? && TagArgs(line, "#EXT-X-ENDLIST").None?
    ensures !Starts(line, "#EXTM3U") && line[0] == '#'
  {
    var tag := "#EXT-X-KEY";
    NotHeader(line, tag);
    OtherTag(line, tag, "#EXTINF", 4);
    OtherTag(line, tag, "#EXT-X-STREAM-INF", 7);
    OtherTag(line, tag, "#EXT-X-TARGETDURATION", 7);
    OtherTag(line, tag, "#EXT-X-MEDIA-SEQUENCE", 7);
    OtherTag(line, tag, "#EXT-X-DISCONTINUITY", 7);
    OtherTag(line, tag, "#EXT-X-ENDLIST", 7);
    hide TagArgs, Starts;
  }

  // A key tag's line is what its attributes make it.
  lemma KeyTag(base: string, num: string -> real, line: string, args: string)
    requires "#EXT-X-KEY" <= line && TagArgs(line, "#EXT-X-KEY") == Some(args)
    ensures LineOf(base, num, line) == K.KeyLine(base, K.KeyTextOf(Attrs(args)))
  {
    hide TagArgs, Attrs, Starts, K.KeyTextOf, K.KeyLine, UrlUtil.Fitting, Sequence;
    OnlyKey(line);
  }

  lemma AttrsWritten(ws: seq<Written>)
    requires forall k | 0 <= k < |ws| :: WrittenOk(ws[k])
    ensures Attrs(PrintAll(ws)) == K.Written(ws)
  {
    hide Attrs, PrintAll, WrittenOk;
    AttrsReadBack(ws);
  }

  lemma KeyReads(base: string, num: string -> real, ws: seq<Written>)
    requires forall k | 0 <= k < |ws| :: WrittenOk(ws[k])
    ensures LineOf(base, num, "#EXT-X-KEY" + ":" + PrintAll(ws)) == K.KeyLine(base, K.KeyTextOf(K.Written(ws)))
  {
    hide *;
    TagReads("#EXT-X-KEY", PrintAll(ws));
    KeyTag(base, num, "#EXT-X-KEY" + ":" + PrintAll(ws), PrintAll(ws));
    AttrsWritten(ws);
  }

  /** Each tag and URI line reads as what it says. */
  lemma ItemReadsBack(base: string, num: string -> real, i: Item)
    requires ItemOk(i)
    ensures ItemText(i) != "" && LineOf(base, num, ItemText(i)) == ItemLine(base, num, i)
  {
    hide LineOf, PrintDec, PrintAll, K.KeyLine, K.KeyTextOf, K.Written, UrlUtil.Fitting;
    match i
    case HeaderItem => HeaderReads(base, num);
    case InfItem(args) => InfReads(base, num, args);
    case StreamItem(args) => StreamReads(base, num, args);
    case TargetItem(args) => TargetReads(base, num, args);
    case NumberItem(n) => NumberReads(base, num, n);
    case DiscItem => DiscReads(base, num);
    case EndItem => EndReads(base, num);
    case KeyItem(ws) => KeyReads(base, num, ws);
    case UriItem(uri) => UriReads(base, num, uri);
  }

  lemma HeaderReads(base: string, num: string -> real)
    ensures LineOf(base, num, "#EXTM3U") == Header
  {}

  lemma UriReads(base: string, num: string -> real, uri: string)
    requires uri != "" && uri[0] != '#'
    ensures LineOf(base, num, uri) == Uri(UrlUtil.Fitting(base, uri, MAX_URL))
  {}
}
