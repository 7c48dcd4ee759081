/** src/favourites.c: the file format. One station a line, its fields between tabs, so that whatever is left
    of a file after a power cut still loads as the stations whose lines are whole. */
module FavFormat {
  import opened Prelude

  datatype Station = Station(name: string, url: string, kind: string)

  // C strings: a field holds no NUL.
  predicate StationOk(s: Station) {
    '\0' !in s.name && '\0' !in s.url && '\0' !in s.kind
  }

  // ---- writing ----------------------------------------------------------------------------------------

  // Tabs and line ends inside a field become spaces.
  function Clean(c: char): char {
    if c == '\t' || c == '\n' || c == '\r' then ' ' else c
  }

  function Field(s: string): (r: string)
    ensures |r| == |s| && forall k | 0 <= k < |s| :: r[k] == Clean(s[k])
  {
    if s == "" then "" else Field(s[..|s| - 1]) + [Clean(s[|s| - 1])]
  }

  function Sanitized(s: Station): Station {
    Station(Field(s.name), Field(s.url), Field(s.kind))
  }

  function AllSanitized(ss: seq<Station>): (r: seq<Station>)
    ensures |r| == |ss| && forall k | 0 <= k < |ss| :: r[k] == Sanitized(ss[k])
  {
    if ss == [] then [] else [Sanitized(ss[0])] + AllSanitized(ss[1..])
  }

  // A row without its line end.
  function Row(s: Station): string {
    Field(s.name) + "\t" + Field(s.url) + "\t" + Field(s.kind)
  }

  function Saved(ss: seq<Station>): string {
    if ss == [] then "" else Row(ss[0]) + "\n" + Saved(ss[1..])
  }

  // ---- reading ----------------------------------------------------------------------------------------

  // The first place of c from i on, or the length.
  function Find(s: string, c: char, i: nat): (r: nat)
    requires i <= |s|
    ensures i <= r <= |s| && (r < |s| ==> s[r] == c)
    ensures forall k | i <= k < r :: s[k] != c
    decreases |s| - i
  {
    if i == |s| || s[i] == c then i else Find(s, c, i + 1)
  }

  // A line as the buffer holds it: without the carriage return of a CRLF file.
  function Chopped(line: string): string {
    if line != "" && line[|line| - 1] == '\r' then line[..|line| - 1] else line
  }

  // The station on a line, if it has its two tabs before any NUL.
  function Parsed(line: string): Option<Station> {
    var text := line[..Find(line, '\0', 0)];
    var t1 := Find(text, '\t', 0);
    if t1 == |text| then None
    else
      var t2 := Find(text, '\t', t1 + 1);
      if t2 == |text| then None
      else Some(Station(text[..t1], text[t1 + 1..t2], text[t2 + 1..]))
  }

  // What a file loads as: a line that does not end is dropped.
  function Loaded(content: string): seq<Station>
    decreases |content|
  {
    var n := Find(content, '\n', 0);
    if n == |content| then []
    else
      Added(Parsed(Chopped(content[..n]))) + Loaded(content[n + 1..])
  }

  function Added(s: Option<Station>): seq<Station> {
    if s.Some? then [s.value] else []
  }

  // ---- the two together ---------------------------------------------------------------------------------

  lemma FindIs(s: string, c: char, i: nat, n: nat)
    requires i <= n <= |s| && (forall k | i <= k < n :: s[k] != c) && (n < |s| ==> s[n] == c)
    ensures Find(s, c, i) == n
    decreases n - i
  {
    if i < n { FindIs(s, c, i + 1, n); }
  }

  // What is loaded of a station: all its characters but TAB, LF and CR, which have become spaces.
  predicate SameBut(s: string, r: string) {
    |r| == |s| && forall k | 0 <= k < |s| ::
      r[k] as int == if s[k] as int == 9 || s[k] as int == 10 || s[k] as int == 13 then 32 else s[k] as int
  }

  predicate Plain(s: string) {
    forall k | 0 <= k < |s| :: s[k] as int != 9 && s[k] as int != 10 && s[k] as int != 13
  }

  /** A saved list loses nothing but the three characters of the format, and a station without them nothing. */
  lemma SanitizedKeeps(s: Station)
    ensures SameBut(s.name, Sanitized(s).name) && SameBut(s.url, Sanitized(s).url) && SameBut(s.kind, Sanitized(s).kind)
    ensures Plain(s.name) && Plain(s.url) && Plain(s.kind) ==> Sanitized(s) == s
  {
    FieldKeeps(s.name);
    FieldKeeps(s.url);
    FieldKeeps(s.kind);
    hide Field, SameBut, Plain;
  }

  lemma FieldKeeps(s: string)
    ensures SameBut(s, Field(s)) && (Plain(s) ==> Field(s) == s)
  {}

  // No field has a character of the format in it.
  lemma FieldClean(s: string)
    requires '\0' !in s
    ensures forall c | c in Field(s) :: c != '\t' && c != '\n' && c != '\r' && c != '\0'
  {
    forall k | 0 <= k < |s|
      ensures Field(s)[k] != '\0'
    {
      assert s[k] in s;
    }
  }

  lemma RowParts(s: Station)
    requires StationOk(s)
    ensures var r, a, b := Row(s), |s.name|, |s.name| + 1 + |s.url|;
      && |r| == b + 1 + |s.kind| && r[a] == '\t' && r[b] == '\t'
      && r[..a] == Field(s.name) && r[a + 1..b] == Field(s.url) && r[b + 1..] == Field(s.kind)
      && (forall k | 0 <= k < |r| :: r[k] != '\n' && r[k] != '\r' && r[k] != '\0')
      && (forall k | 0 <= k < |r| && k != a && k != b :: r[k] != '\t')
  {
    var r, a, b := Row(s), |s.name|, |s.name| + 1 + |s.url|;
    FieldClean(s.name);
    FieldClean(s.url);
    FieldClean(s.kind);
    forall k | 0 <= k < |r|
      ensures r[k] != '\n' && r[k] != '\r' && r[k] != '\0' && (k != a && k != b ==> r[k] != '\t')
    {
      if k < a {
        assert r[k] == Field(s.name)[k] && r[k] in Field(s.name);
      } else if a < k < b {
        assert r[k] == Field(s.url)[k - a - 1] && r[k] in Field(s.url);
      } else if b < k {
        assert r[k] == Field(s.kind)[k - b - 1] && r[k] in Field(s.kind);
      }
    }
  }

  // A line without a NUL, and with two tabs and no more.
  lemma FieldsParse(r: string, a: nat, b: nat)
    requires a < b < |r| && r[a] == '\t' && r[b] == '\t' && (forall k | 0 <= k < |r| && k != a && k != b :: r[k] != '\t')
    requires forall k | 0 <= k < |r| :: r[k] != '\0'
    ensures Parsed(r) == Some(Station(r[..a], r[a + 1..b], r[b + 1..]))
  {
    hide Find;
    FindIs(r, '\0', 0, |r|);
    assert r[..|r|] == r;
    FindIs(r, '\t', 0, a);
    FindIs(r, '\t', a + 1, b);
  }

  lemma NoReturn(r: string)
    requires forall k | 0 <= k < |r| :: r[k] != '\r'
    ensures Chopped(r) == r
  {}

  lemma RowParses(s: Station)
    requires StationOk(s)
    ensures Chopped(Row(s)) == Row(s) && Parsed(Row(s)) == Some(Sanitized(s))
  {
    hide Field, Find, Row, Parsed, Chopped, StationOk;
    RowParts(s);
    NoReturn(Row(s));
    FieldsParse(Row(s), |s.name|, |s.name| + 1 + |s.url|);
  }

  // How many rows a prefix of a file holds whole.
  function Whole(ss: seq<Station>, k: nat): (m: nat)
    ensures m <= |ss|
  {
    if ss == [] || k < |Row(ss[0])| + 1 then 0 else 1 + Whole(ss[1..], k - |Row(ss[0])| - 1)
  }

  // A line, and what follows it.
  lemma LoadedLine(content: string, line: string, rest: string)
    requires content == line + "\n" + rest && forall k | 0 <= k < |line| :: line[k] != '\n'
    ensures Loaded(content) == Added(Parsed(Chopped(line))) + Loaded(rest)
  {
    hide Parsed, Chopped, Added;
    FindIs(content, '\n', 0, |line|);
    hide Find;
    assert content[..|line|] == line && content[|line| + 1..] == rest;
  }

  lemma NoLine(content: string)
    requires forall k | 0 <= k < |content| :: content[k] != '\n'
    ensures Loaded(content) == []
  {
    FindIs(content, '\n', 0, |content|);
  }

  lemma RowHasNoEnd(s: Station)
    requires StationOk(s)
    ensures forall k | 0 <= k < |Row(s)| :: Row(s)[k] != '\n'
  {
    RowParts(s);
  }

  lemma PrefixOf(r: string, rest: string, k: nat)
    requires k <= |r| + 1 + |rest|
    ensures k <= |r| ==> (r + "\n" + rest)[..k] == r[..k]
    ensures k > |r| ==> (r + "\n" + rest)[..k] == r + "\n" + rest[..k - |r| - 1]
  {}

  lemma PrefixNone(ss: seq<Station>, k: nat)
    requires ss != [] && StationOk(ss[0]) && k <= |Row(ss[0])|
    ensures k <= |Saved(ss)| && Loaded(Saved(ss)[..k]) == []
  {
    var r := Row(ss[0]);
    RowHasNoEnd(ss[0]);
    PrefixOf(r, Saved(ss[1..]), k);
    hide Row, Loaded;
    NoLine(r[..k]);
  }

  lemma SavedFirst(ss: seq<Station>)
    requires ss != []
    ensures Saved(ss) == Row(ss[0]) + "\n" + Saved(ss[1..])
  {}

  lemma PrefixStep(ss: seq<Station>, k: nat)
    requires ss != [] && StationOk(ss[0]) && |Row(ss[0])| < k <= |Saved(ss)|
    ensures var left := k - |Row(ss[0])| - 1;
      left <= |Saved(ss[1..])| &&
      Loaded(Saved(ss)[..k]) == Added(Some(Sanitized(ss[0]))) + Loaded(Saved(ss[1..])[..left])
  {
    hide *;
    SavedFirst(ss);
    var r, rest := Row(ss[0]), Saved(ss[1..]);
    RowHasNoEnd(ss[0]);
    RowParses(ss[0]);
    FirstRow(r, rest, k);
    LoadedRow(Saved(ss)[..k], r, rest[..k - |r| - 1], Sanitized(ss[0]));
  }

  lemma FirstRow(r: string, rest: string, k: nat)
    requires |r| < k <= |r| + 1 + |rest|
    ensures (r + "\n" + rest)[..k] == r + "\n" + rest[..k - |r| - 1]
  {}

  lemma LoadedRow(c: string, r: string, left: string, s: Station)
    requires c == r + "\n" + left && (forall k | 0 <= k < |r| :: r[k] != '\n')
    requires Chopped(r) == r && Parsed(r) == Some(s)
    ensures Loaded(c) == Added(Some(s)) + Loaded(left)
  {
    hide *;
    LoadedLine(c, r, left);
  }

  /** Whatever prefix of a saved file survives, it loads as the stations whose rows are whole, in order. */
  lemma {:induction false} PrefixLoads(ss: seq<Station>, k: nat)
    requires (forall i | 0 <= i < |ss| :: StationOk(ss[i])) && k <= |Saved(ss)|
    ensures Loaded(Saved(ss)[..k]) == AllSanitized(ss[..Whole(ss, k)])
    decreases |ss|
  {
    hide Loaded, Row, Sanitized, Added;
    if ss == [] {
      NoLine("");
      assert Saved(ss)[..k] == "";
    } else if k <= |Row(ss[0])| {
      PrefixNone(ss, k);
      assert ss[..0] == [];
    } else {
      PrefixStep(ss, k);
      var left := k - |Row(ss[0])| - 1;
      hide Saved;
      PrefixLoads(ss[1..], left);
      FirstSanitized(ss, Whole(ss, k));
    }
  }

  lemma FirstSanitized(ss: seq<Station>, m: nat)
    requires 0 < m <= |ss|
    ensures AllSanitized(ss[..m]) == Added(Some(Sanitized(ss[0]))) + AllSanitized(ss[1..][..m - 1])
  {
    assert ss[..m][1..] == ss[1..][..m - 1];
    hide Sanitized;
  }

  lemma {:induction false} AllWhole(ss: seq<Station>)
    ensures Whole(ss, |Saved(ss)|) == |ss|
  {
    if ss != [] { AllWhole(ss[1..]); }
  }

  lemma SanitizedPrefix(ss: seq<Station>, m: nat)
    requires m <= |ss|
    ensures AllSanitized(ss[..m]) <= AllSanitized(ss)
  {
    hide Sanitized;
  }

  lemma AllOf<T>(s: seq<T>)
    ensures s[..|s|] == s
  {}

  /** A whole file loads as all the favourites, and any part of it as some first ones of them. */
  lemma SavedLoads(ss: seq<Station>, k: nat)
    requires (forall i | 0 <= i < |ss| :: StationOk(ss[i])) && k <= |Saved(ss)|
    ensures Loaded(Saved(ss)) == AllSanitized(ss)
    ensures Loaded(Saved(ss)[..k]) <= AllSanitized(ss)
  {
    hide *;
    AllOf(ss);
    AllOf(Saved(ss));
    AllWhole(ss);
    PrefixLoads(ss, |Saved(ss)|);
    PrefixLoads(ss, k);
    SanitizedPrefix(ss, Whole(ss, k));
  }

  /** Sanitizing is done once: a loaded list saves and loads as itself. */
  lemma SanitizedTwice(s: Station)
    ensures Sanitized(Sanitized(s)) == Sanitized(s)
  {
    assert Field(Field(s.name)) == Field(s.name);
    assert Field(Field(s.url)) == Field(s.url);
    assert Field(Field(s.kind)) == Field(s.kind);
  }

  // ---- the loops ------------------------------------------------------------------------------------------

  // fput_field
  method PutField(s: string, file: string) returns (out: string)
    ensures out == file + Field(s)
  {
    out := file;
    for i := 0 to |s|
      invariant out == file + Field(s[..i])
    {
      assert s[..i + 1][..i] == s[..i];
      out := out + [Clean(s[i])];
    }
    assert s[..|s|] == s;
  }

  // The loop of fav_save over a list of favourites.
  method WriteRows(ss: seq<Station>) returns (file: string)
    ensures file == Saved(ss)
  {
    file := "";
    for i := 0 to |ss|
      invariant file + Saved(ss[i..]) == Saved(ss)
    {
      var before := file;
      file := PutField(ss[i].name, file);
      file := PutField(ss[i].url, file + "\t");
      file := PutField(ss[i].kind, file + "\t");
      file := file + "\n";
      OneRow(before, ss, i, file);
    }
    assert ss[|ss|..] == [];
  }

  lemma OneRow(before: string, ss: seq<Station>, i: nat, file: string)
    requires i < |ss| && file == before + Field(ss[i].name) + "\t" + Field(ss[i].url) + "\t" + Field(ss[i].kind) + "\n"
    ensures before + Saved(ss[i..]) == file + Saved(ss[i + 1..])
  {
    assert ss[i..][1..] == ss[i + 1..];
    var s := ss[i];
    assert Saved(ss[i..]) == Field(s.name) + "\t" + Field(s.url) + "\t" + Field(s.kind) + "\n" + Saved(ss[i + 1..]);
    hide *;
    Sixfold(before, Field(s.name), Field(s.url), Field(s.kind), Saved(ss[i + 1..]));
  }

  lemma Sixfold(before: string, a: string, b: string, c: string, rest: string)
    ensures before + (a + "\t" + b + "\t" + c + "\n" + rest) == before + a + "\t" + b + "\t" + c + "\n" + rest
  {}

  // lb_read_line: the next line, whether it ended, and where the one after it begins.
  method ReadLine(content: string, from: nat) returns (line: string, terminated: bool, next: nat)
    requires from < |content|
    ensures terminated <==> Find(content[from..], '\n', 0) < |content| - from
    ensures terminated ==>
      next == from + Find(content[from..], '\n', 0) + 1 && line == Chopped(content[from..][..next - 1 - from])
  {
    next := from;
    line := "";
    while next < |content| && content[next] != '\n'
      invariant from <= next <= |content| && line == content[from..next]
      invariant forall k | from <= k < next :: content[k] != '\n'
    {
      assert content[from..next + 1] == content[from..next] + [content[next]];
      line := line + [content[next]];
      next := next + 1;
    }
    FindIs(content[from..], '\n', 0, next - from);
    assert content[from..][..next - from] == content[from..next];
    terminated := next < |content|;
    if terminated { next := next + 1; }
    if line != "" && line[|line| - 1] == '\r' { line := line[..|line| - 1]; }
  }

  // strchr on the line buffer, which ends at its first NUL
  method FindChar(s: string, c: char, from: nat) returns (i: nat)
    requires from <= |s|
    ensures i == Find(s, c, from)
  {
    i := from;
    while i < |s| && s[i] != c
      invariant from <= i <= |s| && Find(s, c, from) == Find(s, c, i)
    {
      i := i + 1;
    }
  }

  lemma Suffix(content: string, at: nat, n: nat)
    requires at + n <= |content|
    ensures content[at..][n..] == content[at + n..]
  {}

  lemma LoadedStep(content: string, n: nat)
    requires n == Find(content, '\n', 0)
    ensures n == |content| ==> Loaded(content) == []
    ensures n < |content| ==> Loaded(content) == Added(Parsed(Chopped(content[..n]))) + Loaded(content[n + 1..])
  {
    hide Find, Parsed, Chopped, Added;
  }

  lemma JoinedUp(a: seq<Station>, b: seq<Station>, c: seq<Station>)
    ensures a + b + c == a + (b + c) && a + [] == a && [] + a == a
  {}

  lemma IsAdded(s: Option<Station>)
    ensures Added(s) == if s.Some? then [s.value] else []
  {}

  // One line of a file from a position on.
  method LoadOne(content: string, at: nat) returns (done: bool, ss: seq<Station>, next: nat)
    requires at < |content|
    ensures done ==> Loaded(content[at..]) == []
    ensures !done ==> at < next <= |content| && Loaded(content[at..]) == ss + Loaded(content[next..])
    ensures |ss| <= 1
  {
    hide *;
    var line, terminated;
    line, terminated, next := ReadLine(content, at);
    LoadedStep(content[at..], Find(content[at..], '\n', 0));
    done, ss := !terminated, [];
    if terminated {
      Suffix(content, at, next - at);
      var s := ParseLine(line);
      ss := if s.Some? then [s.value] else [];
      IsAdded(s);
    }
  }

  // fav_load, on a file that can be read: the stations it appends.
  method Load(content: string, room: nat, readError: bool) returns (rc: int, ss: seq<Station>)
    ensures ss == if |Loaded(content)| <= room then Loaded(content) else Loaded(content)[..room]
    ensures rc == if readError || |Loaded(content)| > room then -1 else 0
  {
    ss := [];
    var at, done: bool := 0, false;
    assert content[0..] == content;
    hide *;
    JoinedUp(Loaded(content), [], []);
    while at < |content| && !done
      invariant at <= |content| && |ss| <= room
      invariant ss + (if done then [] else Loaded(content[at..])) == Loaded(content)
      decreases !done, |content| - at
    {
      var more, next;
      done, more, next := LoadOne(content, at);
      if !done {
        JoinedUp(ss, more, Loaded(content[next..]));
        if |ss| + |more| > room {
          Beginning(ss, more + Loaded(content[next..]));
          return -1, ss;
        }
        ss := ss + more;
        at := next;
      }
    }
    NoLine("");
    assert at == |content| ==> content[at..] == "";
    JoinedUp(ss, [], []);
    rc := if readError then -1 else 0;
  }

  // What the file under a name loads as: none at all is no favourites yet.
  function Loads(file: Option<string>): seq<Station> {
    if file.None? then [] else Loaded(file.value)
  }

  // fav_load, on a name: denied is a file that is there and cannot be opened.
  method LoadFile(file: Option<string>, denied: bool, room: nat, readError: bool) returns (rc: int, ss: seq<Station>)
    ensures denied ==> rc == -1 && ss == []
    ensures !denied ==> ss == if |Loads(file)| <= room then Loads(file) else Loads(file)[..room]
    ensures !denied ==> rc == if (file.Some? && readError) || |Loads(file)| > room then -1 else 0
  {
    hide Loaded;
    if denied { return -1, []; }
    if file.None? { return 0, []; }
    rc, ss := Load(file.value, room, readError);
  }

  lemma Beginning(a: seq<Station>, b: seq<Station>)
    ensures (a + b)[..|a|] == a
  {}

  method ParseLine(line: string) returns (s: Option<Station>)
    ensures s == Parsed(line)
  {
    var end := FindChar(line, '\0', 0);
    var text := line[..end];
    var t1 := FindChar(text, '\t', 0);
    if t1 == |text| { return None; }
    var t2 := FindChar(text, '\t', t1 + 1);
    if t2 == |text| { return None; }
    s := Some(Station(text[..t1], text[t1 + 1..t2], text[t2 + 1..]));
  }
}
