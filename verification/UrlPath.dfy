/** src/url_util.c, normalize_path: a stack of segments instead of the string rewriting of section 5.2.4
    of RFC 3986, with the same result. */
module UrlPath {
  import opened Prelude

  const MAX_PATH_LEN := 1536
  const MAX_SEGS := 128

  // ---- section 5.2.4 of RFC 3986 -----------------------------------------------------------------

  predicate StartsWith(s: string, p: string) {
    |s| >= |p| && s[..|p|] == p
  }

  // The index of the first '/' from i on, or the length.
  function Slash(s: string, i: nat): (r: nat)
    requires i <= |s|
    ensures i <= r <= |s| && (r < |s| ==> s[r] == '/')
    ensures forall k | i <= k < r :: s[k] != '/'
    decreases |s| - i
  {
    if i == |s| || s[i] == '/' then i else Slash(s, i + 1)
  }

  // The output buffer without its last segment and the '/' before it.
  function RemoveLast(out: string): string {
    if out == "" then "" else if out[|out| - 1] == '/' then out[..|out| - 1] else RemoveLast(out[..|out| - 1])
  }

  // The loop of section 5.2.4, on the input and the output buffer.
  function Remove(input: string, out: string): string
    decreases |input|
  {
    if input == "" then out
    else if StartsWith(input, "../") then Remove(input[3..], out)
    else if StartsWith(input, "./") then Remove(input[2..], out)
    else if StartsWith(input, "/./") then Remove(input[2..], out)
    else if input == "/." then Remove("/", out)
    else if StartsWith(input, "/../") then Remove(input[3..], RemoveLast(out))
    else if input == "/.." then Remove("/", RemoveLast(out))
    else if input == "." || input == ".." then out
    else
      var n := Slash(input, if input[0] == '/' then 1 else 0);
      Remove(input[n..], out + input[..n])
  }

  function RemoveDotSegments(path: string): string {
    Remove(path, "")
  }

  // ---- the stack ----------------------------------------------------------------------------------------

  // Segments, each after a '/'.
  function Render(segs: seq<string>): string {
    if segs == [] then "" else Render(segs[..|segs| - 1]) + "/" + segs[|segs| - 1]
  }

  // What the loop over the segments leaves: the stack, and whether a '/' follows it.
  datatype Walked = Walked(segs: seq<string>, trailing: bool)

  function Popped(segs: seq<string>): seq<string> {
    if segs == [] then [] else segs[..|segs| - 1]
  }

  // One segment.
  function Put(segs: seq<string>, seg: string): Walked {
    if seg == "." then Walked(segs, true)
    else if seg == ".." then Walked(Popped(segs), true)
    else Walked(segs + [seg], false)
  }

  // The loop of normalize_path over what is left of the path.
  function Walk(rest: string, segs: seq<string>): Walked
    decreases |rest|
  {
    var n := Slash(rest, 0);
    var w := Put(segs, rest[..n]);
    if n == |rest| then w
    else if n + 1 == |rest| then w.(trailing := true)
    else Walk(rest[n + 1..], w.segs)
  }

  function Final(w: Walked): string {
    Render(w.segs) + if w.trailing then "/" else ""
  }

  // A path with a leading '/', normalized.
  function Normalized(path: string): string {
    if path == "/" || path == "" then path else Final(Walk(path[1..], []))
  }

  // ---- the two agree -------------------------------------------------------------------------------------

  predicate Plain(seg: string) {
    '/' !in seg && seg != "." && seg != ".."
  }

  lemma RemoveLastOf(out: string, seg: string)
    requires '/' !in seg
    ensures RemoveLast(out + "/" + seg) == out
    decreases |seg|
  {
    var s := out + "/" + seg;
    if seg == "" {
      assert s == out + "/";
      assert s[..|s| - 1] == out;
    } else {
      var init := seg[..|seg| - 1];
      assert s[..|s| - 1] == out + "/" + init;
      assert s[|s| - 1] == seg[|seg| - 1] && seg[|seg| - 1] in seg;
      assert '/' !in init by { assert forall c | c in init :: c in seg; }
      RemoveLastOf(out, init);
    }
  }

  lemma RenderPopped(segs: seq<string>)
    requires forall s | s in segs :: Plain(s)
    ensures RemoveLast(Render(segs)) == Render(Popped(segs))
  {
    if segs != [] {
      assert segs[|segs| - 1] in segs;
      RemoveLastOf(Render(Popped(segs)), segs[|segs| - 1]);
    }
  }

  lemma RenderPush(segs: seq<string>, seg: string)
    ensures Render(segs + [seg]) == Render(segs) + "/" + seg
  {
    assert (segs + [seg])[..|segs|] == segs;
  }

  lemma RemoveSlash(out: string)
    ensures Remove("/", out) == out + "/"
  {
    assert Slash("/", 1) == 1 && "/"[1..] == "" && "/"[..1] == "/";
  }

  lemma SlashAt(s: string, i: nat, n: nat)
    requires i <= n <= |s| && (forall k | i <= k < n :: s[k] != '/') && (n < |s| ==> s[n] == '/')
    ensures Slash(s, i) == n
    decreases n - i
  {
    if i < n { SlashAt(s, i + 1, n); }
  }

  // An ordinary segment goes to the output as it is.
  lemma RemovePlain(input: string, seg: string, out: string)
    requires Plain(seg) && |input| >= 1 + |seg| && input[0] == '/' && input[1..1 + |seg|] == seg
    requires |input| == 1 + |seg| || input[1 + |seg|] == '/'
    ensures Remove(input, out) == Remove(input[1 + |seg|..], out + "/" + seg)
  {
    hide StartsWith, Slash;
    NotDots(input, seg);
    NextSegment(input, seg);
    assert Remove(input, out) == Remove(input[1 + |seg|..], out + input[..1 + |seg|]);
    hide Remove;
    assert out + ("/" + seg) == out + "/" + seg;
  }

  lemma NextSegment(input: string, seg: string)
    requires '/' !in seg && |input| >= 1 + |seg| && input[0] == '/' && input[1..1 + |seg|] == seg
    requires |input| == 1 + |seg| || input[1 + |seg|] == '/'
    ensures Slash(input, 1) == 1 + |seg| && input[..1 + |seg|] == "/" + seg
  {
    assert forall k | 0 <= k < |seg| :: input[1 + k] == seg[k] && seg[k] in seg;
    SlashAt(input, 1, 1 + |seg|);
  }

  lemma RemoveDot(rest: string, out: string)
    ensures Remove("/./" + rest, out) == Remove("/" + rest, out)
  {
    var input := "/./" + rest;
    assert StartsWith(input, "/./") && input[0] == '/';
    assert input[2..] == "/" + rest;
    hide Slash;
  }

  lemma RemoveDotDot(rest: string, out: string)
    ensures Remove("/../" + rest, out) == Remove("/" + rest, RemoveLast(out))
  {
    var input := "/../" + rest;
    assert StartsWith(input, "/../") && input[0] == '/' && input[2] == '.';
    assert input[3..] == "/" + rest;
    hide Slash;
  }

  // One segment with a '/' after it.
  lemma RemoveInner(seg: string, rest: string, out: string)
    requires '/' !in seg
    ensures Remove("/" + seg + "/" + rest, out) ==
      if seg == "." then Remove("/" + rest, out)
      else if seg == ".." then Remove("/" + rest, RemoveLast(out))
      else Remove("/" + rest, out + "/" + seg)
  {
    if seg == "." {
      RemoveDot(rest, out);
      assert "/" + seg + "/" == "/./";
    } else if seg == ".." {
      RemoveDotDot(rest, out);
      assert "/" + seg + "/" == "/../";
    } else {
      hide Remove;
      FrontOf(seg, "/", rest);
      RemovePlain("/" + seg + "/" + rest, seg, out);
    }
  }

  // An ordinary segment is not taken for a dot segment.
  lemma NotDots(input: string, seg: string)
    requires '/' !in seg && seg != "." && seg != ".."
    requires |input| >= 1 + |seg| && input[0] == '/' && input[1..1 + |seg|] == seg
    requires |input| == 1 + |seg| || input[1 + |seg|] == '/'
    ensures !StartsWith(input, "/./") && !StartsWith(input, "/../") && input != "/." && input != "/.."
    ensures !StartsWith(input, "./") && !StartsWith(input, "../") && input != "." && input != ".."
  {
    if |seg| >= 1 { assert input[1] == seg[0] && seg[0] in seg; }
    if |seg| >= 2 { assert input[2] == seg[1] && seg[1] in seg; }
    if |seg| >= 3 { assert input[3] == seg[2] && seg[2] in seg; }
    if |seg| == 1 { assert seg == [seg[0]]; }
    if |seg| == 2 { assert seg == [seg[0], seg[1]]; }
  }

  lemma DotDotEnd(out: string)
    ensures Remove("/..", out) == Remove("/", RemoveLast(out))
  {
    var input := "/..";
    assert input[0] == '/' && input[..3][2] == '.';
    assert !StartsWith(input, "../") && !StartsWith(input, "./") && !StartsWith(input, "/./");
    hide StartsWith, Slash;
  }

  // The last segment.
  lemma RemoveEnd(seg: string, out: string)
    requires '/' !in seg
    ensures Remove("/" + seg, out) ==
      if seg == "." then out + "/" else if seg == ".." then RemoveLast(out) + "/" else out + "/" + seg
  {
    var input := "/" + seg;
    if seg == "." {
      RemoveSlash(out);
      assert input == "/." && Remove("/.", out) == Remove("/", out);
    } else if seg == ".." {
      RemoveSlash(RemoveLast(out));
      assert input == "/..";
      DotDotEnd(out);
    } else {
      assert input[1..1 + |seg|] == seg && input[1 + |seg|..] == "";
      RemovePlain(input, seg, out);
    }
  }

  ghost predicate AllPlain(segs: seq<string>) {
    forall s | s in segs :: Plain(s)
  }

  lemma PutPlain(segs: seq<string>, seg: string)
    requires AllPlain(segs) && '/' !in seg
    ensures AllPlain(Put(segs, seg).segs)
    ensures Render(Put(segs, seg).segs) ==
      if seg == "." then Render(segs) else if seg == ".." then RemoveLast(Render(segs)) else Render(segs) + "/" + seg
  {
    RenderPopped(segs);
    RenderPush(segs, seg);
    assert forall s | s in Popped(segs) :: s in segs;
    hide Render, RemoveLast, Plain;
  }

  // The segment at the front of what is left.
  lemma FrontSegment(rest: string)
    ensures var n := Slash(rest, 0);
      '/' !in rest[..n] && (n < |rest| ==> "/" + rest == "/" + rest[..n] + "/" + rest[n + 1..])
  {
    var n := Slash(rest, 0);
    if n < |rest| { Splice(rest, n); }
  }

  lemma Splice(s: string, n: nat)
    requires n < |s| && s[n] == '/'
    ensures "/" + s == "/" + s[..n] + "/" + s[n + 1..]
  {
    var t := "/" + s[..n] + "/" + s[n + 1..];
    assert |t| == |"/" + s|;
    forall k | 0 <= k < |t| ensures t[k] == ("/" + s)[k] {}
  }

  /** The stack does what the string rewriting does. */
  lemma {:induction false} WalkIsRemove(rest: string, segs: seq<string>)
    requires AllPlain(segs)
    ensures Remove("/" + rest, Render(segs)) == Final(Walk(rest, segs))
    ensures AllPlain(Walk(rest, segs).segs)
    decreases |rest|
  {
    var n := Slash(rest, 0);
    var seg := rest[..n];
    FrontSegment(rest);
    PutPlain(segs, seg);
    if n == |rest| {
      assert rest[..n] == rest;
      RemoveEnd(seg, Render(segs));
      hide Remove, Render, RemoveLast, AllPlain, Slash;
      assert Render(Put(segs, seg).segs) + "" == Render(Put(segs, seg).segs);
    } else {
      RemoveInner(seg, rest[n + 1..], Render(segs));
      var w := Put(segs, seg);
      RemoveSlash(Render(w.segs));
      hide Remove, Render, RemoveLast, AllPlain, Slash;
      if n + 1 == |rest| {
        assert "/" + rest[n + 1..] == "/";
      } else {
        WalkIsRemove(rest[n + 1..], w.segs);
      }
    }
  }

  /** For every path with a leading '/', the stack gives what section 5.2.4 of RFC 3986 does. */
  lemma NormalizedIsRemoveDotSegments(path: string)
    requires path != "" && path[0] == '/'
    ensures Normalized(path) == RemoveDotSegments(path)
  {
    assert path == "/" + path[1..];
    if path == "/" {
      RemoveSlash("");
    } else {
      WalkIsRemove(path[1..], []);
    }
  }

  // ---- never longer, and settled at once -------------------------------------------------------------------

  lemma PutShort(segs: seq<string>, seg: string)
    ensures |Render(Put(segs, seg).segs)| <= |Render(segs)| + 1 + |seg|
    ensures Put(segs, seg).trailing ==> |Render(Put(segs, seg).segs)| <= |Render(segs)| && seg != ""
  {
    RenderPush(segs, seg);
  }

  lemma {:induction false} WalkShort(rest: string, segs: seq<string>)
    ensures |Final(Walk(rest, segs))| <= |Render(segs)| + 1 + |rest|
    decreases |rest|
  {
    var n := Slash(rest, 0);
    PutShort(segs, rest[..n]);
    hide Render, Put, Slash;
    if n + 1 < |rest| { WalkShort(rest[n + 1..], Put(segs, rest[..n]).segs); }
  }

  /** Normalizing never lengthens a path. */
  lemma NeverLonger(path: string)
    requires path != "" && path[0] == '/'
    ensures |Normalized(path)| <= |path|
  {
    if path != "/" { WalkShort(path[1..], []); }
  }

  // Ordinary segments are all kept.
  lemma {:induction false} RemoveKeeps(segs: seq<string>, tail: string, out: string)
    requires AllPlain(segs) && (tail == "" || tail == "/")
    ensures Remove(Render(segs) + tail, out) == out + Render(segs) + tail
    decreases |segs|
  {
    if segs == [] {
      assert Render(segs) + tail == tail && out + "" + tail == out + tail;
      RemoveSlash(out);
      assert Remove("", out) == out;
    } else {
      var seg, rest := segs[0], segs[1..];
      RenderFirst(segs);
      assert seg in segs;
      assert AllPlain(rest);
      RemoveKeeps(rest, tail, out + "/" + seg);
      NextSlash(rest, tail);
      hide Remove, Render;
      var input := Render(segs) + tail;
      FrontOf(seg, Render(rest), tail);
      RemovePlain(input, seg, out);
      Moved(out, "/", seg, Render(rest), tail);
    }
  }

  lemma Moved(a: string, b: string, c: string, d: string, e: string)
    ensures a + b + c + d + e == a + (b + c + d) + e
  {}

  lemma FrontOf(seg: string, rest: string, tail: string)
    ensures var input := "/" + seg + rest + tail;
      && |input| >= 1 + |seg| && input[0] == '/' && input[1..1 + |seg|] == seg
      && input[1 + |seg|..] == rest + tail
      && (rest + tail != "" ==> |input| > 1 + |seg| && input[1 + |seg|] == (rest + tail)[0])
  {}

  lemma {:induction false} RenderFirst(segs: seq<string>)
    requires segs != []
    ensures Render(segs) == "/" + segs[0] + Render(segs[1..])
    decreases |segs|
  {
    if |segs| == 1 {
      assert segs[..0] == [] && segs[1..] == [];
    } else {
      var init, tail := segs[..|segs| - 1], segs[1..];
      assert init[1..] == tail[..|tail| - 1] && tail[|tail| - 1] == segs[|segs| - 1];
      assert Render(segs) == Render(init) + "/" + segs[|segs| - 1];
      assert Render(tail) == Render(init[1..]) + "/" + segs[|segs| - 1];
      hide Render;
      RenderFirst(init);
      Reassociate("/" + segs[0], Render(init[1..]), "/", segs[|segs| - 1]);
    }
  }

  lemma Reassociate(a: string, b: string, c: string, d: string)
    ensures a + b + c + d == a + (b + c + d)
  {}

  lemma NextSlash(segs: seq<string>, tail: string)
    requires tail == "" || tail == "/"
    ensures Render(segs) + tail == "" || (Render(segs) + tail)[0] == '/'
  {
    if segs != [] { RenderFirst(segs); }
  }

  /** A normalized path is left alone. */
  lemma Idempotent(path: string)
    requires path != "" && path[0] == '/'
    ensures Normalized(path) != "" && Normalized(path)[0] == '/'
    ensures Normalized(Normalized(path)) == Normalized(path)
  {
    if path != "/" {
      var w := Walk(path[1..], []);
      WalkIsRemove(path[1..], []);
      WalkEndsWell(path[1..], []);
      var tail := if w.trailing then "/" else "";
      NextSlash(w.segs, tail);
      RemoveKeeps(w.segs, tail, "");
      assert "" + Render(w.segs) + tail == Final(w);
      NormalizedIsRemoveDotSegments(Normalized(path));
    }
  }

  lemma {:induction false} WalkEndsWell(rest: string, segs: seq<string>)
    ensures Walk(rest, segs).segs != [] || Walk(rest, segs).trailing
    decreases |rest|
  {
    var n := Slash(rest, 0);
    if n + 1 < |rest| { WalkEndsWell(rest[n + 1..], Put(segs, rest[..n]).segs); }
  }

  // ---- counting slashes ------------------------------------------------------------------------------------

  function Slashes(path: string): nat {
    if path == "" then 0 else Slashes(path[..|path| - 1]) + if path[|path| - 1] == '/' then 1 else 0
  }

  // strchr for the next '/'
  method FindSlash(s: string, from: nat) returns (e: nat)
    requires from <= |s|
    ensures e == from + Slash(s[from..], 0) <= |s| && (e < |s| ==> s[e] == '/') && s[from..][..e - from] == s[from..e]
  {
    e := from;
    while e < |s| && s[e] != '/'
      invariant from <= e <= |s| && forall k | from <= k < e :: s[k] != '/'
    {
      e := e + 1;
    }
    SlashAt(s[from..], 0, e - from);
  }

  lemma SlashesGrow(path: string, a: nat, b: nat)
    requires a <= b <= |path|
    ensures Slashes(path[..a]) <= Slashes(path[..b])
    ensures a < b && path[b - 1] == '/' ==> Slashes(path[..a]) < Slashes(path[..b])
    decreases b
  {
    if a < b {
      assert path[..b][..b - 1] == path[..b - 1];
      SlashesGrow(path, a, b - 1);
    }
  }

  lemma {:induction false} RenderLonger(segs: seq<string>, i: nat)
    requires i <= |segs|
    ensures |Render(segs[..i])| <= |Render(segs)|
    decreases |segs|
  {
    if i < |segs| {
      assert segs[..|segs| - 1][..i] == segs[..i];
      RenderLonger(segs[..|segs| - 1], i);
    } else {
      assert segs[..i] == segs;
    }
  }

  // ---- what normalize_path makes of any path --------------------------------------------------------------

  predicate Led(path: string) {
    path != "" && path[0] == '/'
  }

  // The path without its leading '/'.
  function Rest(path: string): string {
    if Led(path) then path[1..] else path
  }

  function Stack(path: string): Walked {
    if Rest(path) == "" then Walked([], false) else Walk(Rest(path), [])
  }

  // A segment is pushed where the stack is full.
  predicate Deep(rest: string, segs: seq<string>)
    decreases |rest|
  {
    var n := Slash(rest, 0);
    var seg := rest[..n];
    || (seg != "." && seg != ".." && |segs| >= MAX_SEGS)
    || (n + 1 < |rest| && Deep(rest[n + 1..], Put(segs, seg).segs))
  }

  predicate TooDeep(path: string) {
    Rest(path) != "" && Deep(Rest(path), [])
  }

  // The stack written out, with a leading '/' or without.
  function Output(w: Walked, lead: bool): string {
    if w.segs == [] then if lead then "/" else ""
    else if lead then Final(w)
    else Unled(Final(w))
  }

  function Unled(s: string): string {
    if s == "" then "" else s[1..]
  }

  // Too long for the buffer, which wants two bytes more.
  predicate Overlong(segs: seq<string>, lead: bool) {
    segs != [] && |Render(segs)| + 2 >= MAX_PATH_LEN + if lead then 0 else 1
  }

  function Written(path: string): string {
    Output(Stack(path), Led(path))
  }

  // normalize_path returns -1, where the buffer of the path has so much room.
  predicate Refused(path: string, room: nat) {
    TooDeep(path) || Overlong(Stack(path).segs, Led(path)) || |Written(path)| >= room
  }

  /** With a leading '/', as both its callers give it, what is written is what section 5.2.4 of RFC 3986 says. */
  lemma WrittenIsRemoveDotSegments(path: string)
    requires Led(path)
    ensures Written(path) == RemoveDotSegments(path)
  {
    NormalizedIsRemoveDotSegments(path);
    if path != "/" { WalkEndsWell(path[1..], []); }
    hide Remove;
  }

  lemma PutGrows(segs: seq<string>, seg: string)
    ensures |Put(segs, seg).segs| <= |segs| + 1
  {}

  lemma SlashFound(path: string, s: nat)
    requires s < |path|
    ensures var e := s + Slash(path[s..], 0); e <= |path| && (e < |path| ==> path[e] == '/')
  {
    hide Slash;
  }

  lemma {:induction false} DeepSlashes(path: string, s: nat, segs: seq<string>)
    requires s < |path| && |segs| < Slashes(path[..s]) && Deep(path[s..], segs)
    ensures Slashes(path) > MAX_SEGS
    decreases |path| - s
  {
    hide *;
    var e := s + Slash(path[s..], 0);
    SlashFound(path, s);
    WalkStep(path, s, e, segs);
    SlashesGrow(path, s, |path|);
    assert path[..|path|] == path;
    PutGrows(segs, path[s..e]);
    if e + 1 < |path| && Deep(path[e + 1..], Put(segs, path[s..e]).segs) {
      SlashesGrow(path, s, e + 1);
      DeepSlashes(path, e + 1, Put(segs, path[s..e]).segs);
    }
  }

  /** A path with a leading '/' is refused only if it has more than MAX_SEGS segments or is itself too long. */
  lemma RefusedOnlyIfLong(path: string, room: nat)
    requires Led(path) && Refused(path, room)
    ensures Slashes(path) > 128 || |path| + 2 >= 1536 || |path| >= room
  {
    NeverLonger(path);
    WrittenIsRemoveDotSegments(path);
    NormalizedIsRemoveDotSegments(path);
    OneSlash(path);
    hide Remove, Slashes, Deep;
    if TooDeep(path) { DeepSlashes(path, 1, []); }
  }

  lemma OneSlash(path: string)
    requires Led(path)
    ensures Slashes(path[..1]) == 1
  {
    assert path[..1] == "/" && "/"[..0] == "";
  }

  // ---- normalize_path ------------------------------------------------------------------------------------

  // The stack written out; None if it is too long for the buffer.
  method WriteOut(segs: array<string>, n: nat, trailing: bool, lead: bool) returns (r: Option<string>)
    requires n <= segs.Length
    ensures r == if Overlong(segs[..n], lead) then None else Some(Output(Walked(segs[..n], trailing), lead))
  {
    hide *;
    var tmp := "";
    if lead { tmp := "/"; }
    NothingWritten(lead);
    assert segs[..0] == [];
    for i := 0 to n
      invariant tmp == Output(Walked(segs[..i], false), lead) && !Overlong(segs[..i], lead)
      invariant i == 0 ==> tmp == if lead then "/" else ""
    {
      OutputGrows(segs[..i], segs[i], lead);
      assert segs[..i + 1] == segs[..i] + [segs[i]];
      if i > 0 { tmp := tmp + "/"; }
      if |tmp| + |segs[i]| + 2 >= MAX_PATH_LEN {
        assert segs[..n][..i + 1] == segs[..i + 1];
        OverlongStays(segs[..n], i + 1, lead);
        return None;
      }
      tmp := tmp + segs[i];
    }
    OutputTrails(segs[..n], trailing, lead);
    if trailing && n > 0 { tmp := tmp + "/"; }
    r := Some(tmp);
  }

  lemma NothingWritten(lead: bool)
    ensures Output(Walked([], false), lead) == (if lead then "/" else "") && !Overlong([], lead)
  {}

  lemma OutputTrails(segs: seq<string>, trailing: bool, lead: bool)
    ensures var o := Output(Walked(segs, false), lead);
      Output(Walked(segs, trailing), lead) == if trailing && segs != [] then o + "/" else o
  {
    if segs != [] {
      RenderFirst(segs);
      var text := Render(segs);
      hide Render;
      assert text + "" == text && (text + "/")[1..] == text[1..] + "/";
    }
  }

  lemma OverlongStays(segs: seq<string>, i: nat, lead: bool)
    requires 0 < i <= |segs| && Overlong(segs[..i], lead)
    ensures Overlong(segs, lead)
  {
    RenderLonger(segs, i);
    hide Render;
  }

  lemma WalkStep(path: string, s: nat, e: nat, segs: seq<string>)
    requires s <= e <= |path| && e == s + Slash(path[s..], 0)
    ensures Walk(path[s..], segs) ==
      var w := Put(segs, path[s..e]);
      if e == |path| then w else if e + 1 == |path| then w.(trailing := true) else Walk(path[e + 1..], w.segs)
    ensures Deep(path[s..], segs) <==>
      var seg := path[s..e];
      || (seg != "." && seg != ".." && |segs| >= MAX_SEGS)
      || (e + 1 < |path| && Deep(path[e + 1..], Put(segs, seg).segs))
  {
    var rest := path[s..];
    assert rest[..e - s] == path[s..e];
    assert e < |path| ==> rest[e - s + 1..] == path[e + 1..];
  }

  // One segment: dropped, popping another, or pushed if there is room on the stack.
  method PutSegment(segs: array<string>, n: nat, seg: string) returns (count: nat, trailing: bool, full: bool)
    requires n <= segs.Length == MAX_SEGS
    modifies segs
    ensures full <==> seg != "." && seg != ".." && n == MAX_SEGS
    ensures !full ==> count <= n + 1 && count <= MAX_SEGS && Walked(segs[..count], trailing) == Put(old(segs[..n]), seg)
  {
    count, trailing, full := n, false, false;
    if seg == "." {
      trailing := true;
    } else if seg == ".." {
      if n > 0 { count := n - 1; }
      assert segs[..count] == Popped(segs[..n]);
      trailing := true;
    } else if n >= MAX_SEGS {
      full := true;
    } else {
      segs[n] := seg;
      count := n + 1;
      assert segs[..count] == old(segs[..n]) + [seg];
    }
  }

  // One turn of normalize_path's loop.
  method TakeSegment(path: string, s: nat, segs: array<string>, n: nat)
    returns (next: nat, count: nat, trailing: bool, done: bool, full: bool)
    requires s < |path| && n <= segs.Length == MAX_SEGS
    modifies segs
    ensures full ==> Deep(path[s..], old(segs[..n]))
    ensures !full ==> count <= MAX_SEGS && s < next <= |path|
    ensures !full && !done ==> next < |path| && Deep(path[s..], old(segs[..n])) == Deep(path[next..], segs[..count])
    ensures !full && done ==> !Deep(path[s..], old(segs[..n]))
    ensures !full && done ==> Walk(path[s..], old(segs[..n])) == Walked(segs[..count], trailing)
    ensures !full && !done ==> Walk(path[s..], old(segs[..n])) == Walk(path[next..], segs[..count])
  {
    hide Walk, Deep, Slash, Put;
    var e := FindSlash(path, s);
    WalkStep(path, s, e, segs[..n]);
    count, trailing, full := PutSegment(segs, n, path[s..e]);
    next, done := |path|, true;
    if !full && e < |path| {
      next := e + 1;
      done := next == |path|;
      if done { trailing := true; }
    }
  }

  /** normalize_path, on any path: it fails exactly where a segment finds the stack full, or what is left does
      not fit; and with a leading '/' the result is that of section 5.2.4 of RFC 3986. */
  method NormalizePath(path: string, room: nat) returns (r: Option<string>)
    ensures r.None? <==> Refused(path, room)
    ensures r.Some? ==> r.value == Written(path)
    ensures r.Some? && Led(path) ==> r.value == RemoveDotSegments(path)
  {
    if Led(path) { WrittenIsRemoveDotSegments(path); }
    var segs := new string[MAX_SEGS](i => "");
    var lead := path != "" && path[0] == '/';
    var n: nat, s, trailing := 0, if lead then 1 else 0, false;
    var done := s == |path|;
    assert segs[..0] == [] && path[s..] == Rest(path);
    ghost var goal, deep := Stack(path), TooDeep(path);
    hide *;
    while !done
      invariant n <= MAX_SEGS && s <= |path| && (!done ==> s < |path|)
      invariant goal == if done then Walked(segs[..n], trailing) else Walk(path[s..], segs[..n])
      invariant deep == if done then false else Deep(path[s..], segs[..n])
      decreases !done, |path| - s
    {
      var full;
      s, n, trailing, done, full := TakeSegment(path, s, segs, n);
      if full {
        RefusedIff(path, room);
        return None;
      }
    }
    RefusedIff(path, room);
    var tmp := WriteOut(segs, n, trailing, lead);
    if tmp.None? || |tmp.value| >= room { return None; }
    r := tmp;
  }

  lemma RefusedIff(path: string, room: nat)
    ensures Refused(path, room) <==> TooDeep(path) || Overlong(Stack(path).segs, Led(path)) || |Written(path)| >= room
    ensures Written(path) == Output(Stack(path), Led(path)) && (Led(path) <==> path != "" && path[0] == '/')
  {}

  // One more segment written out.
  lemma OutputGrows(segs: seq<string>, seg: string, lead: bool)
    ensures var front := if segs == [] then if lead then "/" else "" else Output(Walked(segs, false), lead) + "/";
      && Output(Walked(segs + [seg], false), lead) == front + seg
      && (Overlong(segs + [seg], lead) <==> |front| + |seg| + 2 >= MAX_PATH_LEN)
  {
    var all := segs + [seg];
    assert all[..|segs|] == segs;
    var was, now := Render(segs), Render(all);
    assert now == was + "/" + seg;
    if segs != [] { RenderFirst(segs); }
    hide Render;
    assert now + "" == now && was + "" == was;
    if segs == [] {
      assert now[1..] == seg && "" + seg == seg;
    } else {
      assert now[1..] == was[1..] + "/" + seg;
    }
  }
}
