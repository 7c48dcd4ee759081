/** src/url_util.c: making a reference absolute, as sections 5.2.2 and 5.3 of RFC 3986 have it. */
module UrlUtil {
  import opened Prelude
  import opened UrlPath

  // ---- scanning ---------------------------------------------------------------------------------------

  // The first place from i on of a character among stops, or the end.
  function Before(s: string, i: nat, stops: string): (r: nat)
    requires i <= |s|
    ensures i <= r <= |s| && (r < |s| ==> s[r] in stops)
    ensures forall k | i <= k < r :: s[k] !in stops
    decreases |s| - i
  {
    if i == |s| || s[i] in stops then i else Before(s, i + 1, stops)
  }

  predicate SepAt(s: string, i: nat) {
    i + 3 <= |s| && s[i] == ':' && s[i + 1] == '/' && s[i + 2] == '/'
  }

  // The first "://".
  function FindSep(s: string, i: nat): (r: Option<nat>)
    requires i <= |s|
    ensures r.Some? ==> i <= r.value && SepAt(s, r.value) && forall k | i <= k < r.value :: !SepAt(s, k)
    ensures r.None? ==> forall k | i <= k <= |s| :: !SepAt(s, k)
    decreases |s| - i
  {
    if SepAt(s, i) then Some(i) else if i == |s| then None else FindSep(s, i + 1)
  }

  predicate SchemeChar(c: char) {
    'a' <= c <= 'z' || 'A' <= c <= 'Z' || '0' <= c <= '9' || c in "+-."
  }

  // url_is_absolute: a scheme, that is a letter and scheme characters, and a colon.
  predicate IsAbsolute(s: string) {
    && s != "" && ('a' <= s[0] <= 'z' || 'A' <= s[0] <= 'Z')
    && exists n :: 0 < n < |s| && s[n] == ':' && forall k | 0 <= k < n :: SchemeChar(s[k])
  }

  /** url_is_absolute */
  method UrlIsAbsolute(s: string) returns (r: bool)
    ensures r == IsAbsolute(s)
  {
    if s == "" || !('a' <= s[0] <= 'z' || 'A' <= s[0] <= 'Z') { return false; }
    var p := 1;
    while p < |s| && SchemeChar(s[p])
      invariant 1 <= p <= |s| && forall k | 0 <= k < p :: SchemeChar(s[k])
    {
      p := p + 1;
    }
    r := p < |s| && s[p] == ':';
    assert r ==> IsAbsolute(s);
    assert !SchemeChar(':');
  }

  // Up to and with the last '/', if there is one.
  function Directory(path: string): string {
    if path == "" || path[|path| - 1] == '/' then path else Directory(path[..|path| - 1])
  }

  /** A directory is what stands in front of the part behind the last '/', that '/' included. */
  lemma {:induction false} DirectoryIs(path: string)
    ensures Directory(path) <= path && '/' !in path[|Directory(path)|..]
    ensures Directory(path) == "" || Directory(path)[|Directory(path)| - 1] == '/'
  {
    if path != "" && path[|path| - 1] != '/' {
      var init := path[..|path| - 1];
      DirectoryIs(init);
      assert path[|Directory(path)|..] == init[|Directory(path)|..] + [path[|path| - 1]];
    }
  }

  /** The characters of a scheme are the letters, the digits, '+', '-' and '.' of section 3.1 of RFC 3986. */
  lemma SchemeCharIs(c: char)
    ensures var code := c as int;
      SchemeChar(c) <==> 65 <= code <= 90 || 97 <= code <= 122 || 48 <= code <= 57 || code == 43 || code == 45 || code == 46
  {}

  // ---- what url_resolve makes of its arguments, sizes apart --------------------------------------------

  // The path of a base's directory and a reference's path.
  function Merge(basePath: string, refPath: string): string {
    if Directory(basePath) == "" then "/" + refPath else Directory(basePath) + refPath
  }

  // A path of the reference's own, or merged with the base's.
  function ByPath(base: string, authEnd: nat, path: string): string
    requires authEnd <= |base| && path != ""
  {
    var end := Before(base, authEnd, "?#");
    base[..authEnd] + RemoveDotSegments(if path[0] == '/' then path else Merge(base[authEnd..end], path))
  }

  // An authority of the reference's own.
  function ByAuthority(base: string, sep: nat, path: string): string
    requires sep <= |base| && |path| >= 2
  {
    var slash := Slash(path, 2);
    base[..sep] + ":" + path[..slash] + if slash < |path| then RemoveDotSegments(path[slash..]) else ""
  }

  // Only a query or a fragment: the base's path stays, and under a fragment its query.
  function BySuffix(base: string, authEnd: nat, fragment: bool): string
    requires authEnd <= |base|
  {
    var end := Before(base, authEnd, if fragment then "#" else "?#");
    base[..end] + if end == authEnd then "/" else ""
  }

  function Resolved(base: string, ref: string): Option<string> {
    if ref == "" then None
    else if IsAbsolute(ref) then Some(ref)
    else
      match FindSep(base, 0)
      case None => None
      case Some(sep) =>
        var authEnd := Before(base, sep + 3, "/?#");
        var tailAt := Before(ref, 0, "?#");
        var path, tail := ref[..tailAt], ref[tailAt..];
        Some((if path == "" then BySuffix(base, authEnd, ref[0] == '#')
              else if |path| >= 2 && path[0] == '/' && path[1] == '/' then ByAuthority(base, sep, path)
              else ByPath(base, authEnd, path)) + tail)
  }

  // ---- sections 5.2.2 and 5.3 of RFC 3986 -----------------------------------------------------------------

  // query and fragment are those without their '?' and '#', if there are any.
  datatype Url = Url(scheme: string, authority: string, path: string, query: Option<string>, fragment: Option<string>)

  datatype Reference =
    Reference(authority: Option<string>, path: string, query: Option<string>, fragment: Option<string>)

  function Query(q: Option<string>): string {
    if q.Some? then "?" + q.value else ""
  }

  function Fragment(f: Option<string>): string {
    if f.Some? then "#" + f.value else ""
  }

  function Recompose(u: Url): string {
    u.scheme + "://" + u.authority + u.path + Query(u.query) + Fragment(u.fragment)
  }

  function RefString(r: Reference): string {
    (if r.authority.Some? then "//" + r.authority.value else "") + r.path + Query(r.query) + Fragment(r.fragment)
  }

  predicate NoneOf(s: string, stops: string) {
    forall c | c in s :: c !in stops
  }

  // An absolute URL with an authority, as the grammar of the RFC has it.
  predicate UrlOk(u: Url) {
    && NoneOf(u.scheme, ":") && NoneOf(u.authority, "/?#") && NoneOf(u.path, "?#")
    && (u.path == "" || u.path[0] == '/')
    && (u.query.Some? ==> NoneOf(u.query.value, "#"))
  }

  // A relative reference.
  predicate ReferenceOk(r: Reference) {
    && (r.authority.Some? ==> NoneOf(r.authority.value, "/?#") && (r.path == "" || r.path[0] == '/'))
    && NoneOf(r.path, "?#") && (r.query.Some? ==> NoneOf(r.query.value, "#"))
    && (r.authority.None? ==> |r.path| < 2 || r.path[0] != '/' || r.path[1] != '/')
    && RefString(r) != "" && !IsAbsolute(RefString(r))
  }

  // Section 5.2.2, for a reference without a scheme.
  function Transform(b: Url, r: Reference): Url {
    if r.authority.Some? then Url(b.scheme, r.authority.value, RemoveDotSegments(r.path), r.query, r.fragment)
    else if r.path == "" then
      Url(b.scheme, b.authority, b.path, if r.query.Some? then r.query else b.query, r.fragment)
    else if r.path[0] == '/' then Url(b.scheme, b.authority, RemoveDotSegments(r.path), r.query, r.fragment)
    else Url(b.scheme, b.authority, RemoveDotSegments(Merge(b.path, r.path)), r.query, r.fragment)
  }

  // ---- taking the arguments apart ------------------------------------------------------------------------

  lemma BeforeIs(s: string, i: nat, n: nat, stops: string)
    requires i <= n <= |s| && (forall k | i <= k < n :: s[k] !in stops) && (n < |s| ==> s[n] in stops)
    ensures Before(s, i, stops) == n
    decreases n - i
  {
    if i < n { BeforeIs(s, i + 1, n, stops); }
  }

  // Where a stretch without stops ends.
  lemma Stretch(front: string, part: string, rest: string, stops: string)
    requires NoneOf(part, stops) && (rest == "" || rest[0] in stops)
    ensures var s := front + part + rest;
      && Before(s, |front|, stops) == |front| + |part|
      && s[|front|..|front| + |part|] == part && s[..|front| + |part|] == front + part
      && s[|front| + |part|..] == rest
  {
    var s := front + part + rest;
    assert forall k | |front| <= k < |front| + |part| :: s[k] == part[k - |front|] && part[k - |front|] in part;
    BeforeIs(s, |front|, |front| + |part|, stops);
  }

  lemma SepFound(scheme: string, rest: string)
    requires NoneOf(scheme, ":")
    ensures FindSep(scheme + "://" + rest, 0) == Some(|scheme|)
    ensures (scheme + "://" + rest)[..|scheme|] == scheme
  {
    var s := scheme + "://" + rest;
    assert forall k | 0 <= k < |scheme| :: s[k] == scheme[k] && scheme[k] in scheme;
    assert SepAt(s, |scheme|);
  }

  lemma Regroup(a: string, b: string, c: string, d: string, e: string)
    ensures a + b + c + d + e == a + (b + c + d + e)
    ensures a + b + c + d + e == (a + b) + c + (d + e)
    ensures a + b + c + d + e == a + b + (c + d + e)
    ensures a + b + c + d + e == (a + b) + (c + d) + e
  {}

  // The pieces of a base.
  lemma BaseApart(u: Url)
    requires UrlOk(u)
    ensures var s := Recompose(u);
      var root := u.scheme + "://" + u.authority;
      && FindSep(s, 0) == Some(|u.scheme|) && s[..|u.scheme|] == u.scheme
      && |s| >= |root| && Before(s, |u.scheme| + 3, "/?#") == |root| && s[..|root|] == root
      && Before(s, |root|, "?#") == |root| + |u.path| && s[|root|..|root| + |u.path|] == u.path
      && s[..|root| + |u.path|] == root + u.path
      && Before(s, |root|, "#") == |root| + |u.path| + |Query(u.query)|
      && s[..|root| + |u.path| + |Query(u.query)|] == root + (u.path + Query(u.query))
  {
    var front, root, q, f := u.scheme + "://", u.scheme + "://" + u.authority, Query(u.query), Fragment(u.fragment);
    Regroup(front, u.authority, u.path, q, f);
    assert NoneOf(u.path + q, "#");
    hide Before, FindSep, NoneOf, Query, Fragment;
    SepFound(u.scheme, u.authority + u.path + q + f);
    Stops(u);
    Stretch(front, u.authority, u.path + q + f, "/?#");
    Stretch(root, u.path, q + f, "?#");
    Stretch(root, u.path + q, f, "#");
  }

  // What comes after the authority, the path and the query.
  lemma Stops(u: Url)
    requires UrlOk(u)
    ensures var q, f := Query(u.query), Fragment(u.fragment);
      && (u.path + q + f == "" || (u.path + q + f)[0] in "/?#")
      && (q + f == "" || (q + f)[0] in "?#") && (f == "" || f[0] in "#")
      && NoneOf(u.authority, "/?#") && NoneOf(u.path, "?#") && NoneOf(u.scheme, ":")
  {}

  // A reference up to the end of its path.
  function Front(r: Reference): string {
    (if r.authority.Some? then "//" + r.authority.value else "") + r.path
  }

  lemma FreeJoins(a: string, b: string, stops: string)
    requires NoneOf(a, stops) && NoneOf(b, stops)
    ensures NoneOf(a + b, stops)
  {}

  lemma FrontIsFree(r: Reference)
    requires ReferenceOk(r)
    ensures NoneOf(Front(r), "?#")
  {
    hide RefString, IsAbsolute;
    if r.authority.Some? {
      assert NoneOf("//", "?#") && NoneOf(r.authority.value, "?#");
      hide NoneOf;
      FreeJoins("//", r.authority.value, "?#");
      FreeJoins("//" + r.authority.value, r.path, "?#");
    } else {
      assert NoneOf("", "?#");
      hide NoneOf;
      FreeJoins("", r.path, "?#");
    }
  }

  lemma TailStops(r: Reference)
    ensures var tail := Query(r.query) + Fragment(r.fragment); tail == "" || tail[0] in "?#"
  {}

  lemma Grouped(a: string, b: string, c: string)
    ensures a + b + c == "" + a + (b + c) && "" + a == a
  {}

  lemma RefSplits(r: Reference)
    requires ReferenceOk(r)
    ensures var tail := Query(r.query) + Fragment(r.fragment);
      RefString(r) == "" + Front(r) + tail && NoneOf(Front(r), "?#") && (tail == "" || tail[0] in "?#")
  {
    hide NoneOf, Query, Fragment, IsAbsolute, ReferenceOk;
    FrontIsFree(r);
    TailStops(r);
    Grouped(Front(r), Query(r.query), Fragment(r.fragment));
  }

  // The pieces of a reference: where its path ends, and what follows.
  lemma RefApart(r: Reference)
    requires ReferenceOk(r)
    ensures var s, tail := RefString(r), Query(r.query) + Fragment(r.fragment);
      && Before(s, 0, "?#") == |Front(r)| && s[..|Front(r)|] == Front(r) && s[|Front(r)|..] == tail
  {
    hide *;
    RefSplits(r);
    Stretch("", Front(r), Query(r.query) + Fragment(r.fragment), "?#");
    assert "" + Front(r) == Front(r);
  }

  // ---- the two agree ------------------------------------------------------------------------------------------

  lemma PathTransforms(b: Url, r: Reference)
    requires r.authority.None? && r.path != ""
    ensures var t := Transform(b, r);
      && t.scheme == b.scheme && t.authority == b.authority && t.query == r.query
      && t.path == RemoveDotSegments(if r.path[0] == '/' then r.path else Merge(b.path, r.path))
  {
    hide RemoveDotSegments, Merge;
  }

  lemma PathAgrees(b: Url, r: Reference)
    requires UrlOk(b) && ReferenceOk(r) && r.authority.None? && r.path != ""
    ensures var t, root := Transform(b, r), b.scheme + "://" + b.authority;
      t.scheme == b.scheme && t.authority == b.authority && t.query == r.query &&
      ByPath(Recompose(b), |root|, r.path) == root + t.path
  {
    hide Before, FindSep, Recompose, RemoveDotSegments, Merge, ReferenceOk, UrlOk, Transform;
    BaseApart(b);
    PathTransforms(b, r);
  }

  lemma ByAuthorityIs(base: string, scheme: string, authority: string, path: string)
    requires |scheme| <= |base| && base[..|scheme|] == scheme
    requires NoneOf(authority, "/?#") && (path == "" || path[0] == '/')
    ensures ByAuthority(base, |scheme|, "//" + authority + path) == scheme + "://" + authority + RemoveDotSegments(path)
  {
    hide RemoveDotSegments, Slash, NoneOf;
    NextSlashAt(authority, path);
    NothingToRemove();
    AuthorityJoins(scheme, authority);
  }

  lemma AuthorityJoins(scheme: string, authority: string)
    ensures scheme + ":" + ("//" + authority) == scheme + "://" + authority
  {}

  lemma AuthorityTransforms(b: Url, r: Reference)
    requires ReferenceOk(r) && r.authority.Some?
    ensures var t := Transform(b, r);
      && t.scheme == b.scheme && t.authority == r.authority.value && t.query == r.query
      && t.path == RemoveDotSegments(r.path)
    ensures NoneOf(r.authority.value, "/?#") && (r.path == "" || r.path[0] == '/')
  {
    hide RemoveDotSegments, NoneOf, RefString, IsAbsolute;
  }

  lemma AuthorityAgrees(b: Url, r: Reference)
    requires UrlOk(b) && ReferenceOk(r) && r.authority.Some?
    ensures var t, path := Transform(b, r), "//" + r.authority.value + r.path;
      t.scheme == b.scheme && t.query == r.query &&
      ByAuthority(Recompose(b), |b.scheme|, path) == b.scheme + "://" + t.authority + t.path
  {
    hide *;
    BaseApart(b);
    AuthorityTransforms(b, r);
    ByAuthorityIs(Recompose(b), b.scheme, r.authority.value, r.path);
  }

  lemma NothingToRemove()
    ensures RemoveDotSegments("") == ""
  {}

  lemma NextSlashAt(authority: string, path: string)
    requires NoneOf(authority, "/?#") && (path == "" || path[0] == '/')
    ensures var s := "//" + authority + path;
      Slash(s, 2) == 2 + |authority| && s[..2 + |authority|] == "//" + authority && s[2 + |authority|..] == path
  {
    var s := "//" + authority + path;
    assert forall k | 0 <= k < |authority| :: s[2 + k] == authority[k] && authority[k] in authority;
    SlashAt(s, 2, 2 + |authority|);
  }

  lemma SuffixAgrees(b: Url, r: Reference)
    requires UrlOk(b) && ReferenceOk(r) && r.authority.None? && r.path == ""
    ensures var root := b.scheme + "://" + b.authority;
      BySuffix(Recompose(b), |root|, r.query.None?) ==
        root + b.path + (if r.query.Some? then "" else Query(b.query)) +
        if b.path == "" && (r.query.Some? || b.query.None?) then "/" else ""
  {
    BaseApart(b);
    hide Before, FindSep, Recompose, ReferenceOk;
    var root := b.scheme + "://" + b.authority;
    assert root + (b.path + Query(b.query)) == root + b.path + Query(b.query);
    assert root + b.path + "" == root + b.path;
  }

  // What url_resolve's pieces and its arguments' make together.
  lemma ResolvedApart(b: Url, r: Reference)
    requires UrlOk(b) && ReferenceOk(r)
    ensures var base, root := Recompose(b), b.scheme + "://" + b.authority;
      var path := (if r.authority.Some? then "//" + r.authority.value else "") + r.path;
      && |base| >= |root| && |base| >= |b.scheme| && (r.authority.Some? ==> |path| >= 2)
      && Resolved(base, RefString(r)) ==
           Some((if r.authority.Some? then ByAuthority(base, |b.scheme|, path)
                 else if r.path == "" then BySuffix(base, |root|, r.query.None?)
                 else ByPath(base, |root|, r.path)) + (Query(r.query) + Fragment(r.fragment)))
  {
    BaseApart(b);
    RefApart(r);
    assert "" + r.path == r.path;
    RefStarts(r);
    hide Before, FindSep, Recompose, RefString, ByPath, ByAuthority, BySuffix, Query, Fragment, IsAbsolute;
  }

  lemma RefStarts(r: Reference)
    requires ReferenceOk(r)
    ensures r.authority.None? && r.path == "" ==> (RefString(r)[0] == '#' <==> r.query.None?)
    ensures r.authority.Some? ==> ("//" + r.authority.value + r.path)[0] == '/' && ("//" + r.authority.value + r.path)[1] == '/'
    ensures r.authority.None? ==> |r.path| < 2 || r.path[0] != '/' || r.path[1] != '/'
  {
    hide IsAbsolute;
  }

  lemma Tailed(front: string, path: string, q: string, f: string)
    ensures front + path + (q + f) == front + path + q + f
  {}

  // A reference that is only a query or a fragment, where the base has no path left to end in.
  predicate Bare(b: Url, r: Reference) {
    r.authority.None? && r.path == "" && b.path == "" && (r.query.Some? || b.query.None?)
  }

  /** url_resolve against section 5.2.2 of RFC 3986: for every base and every relative reference it is the
      same, except that a bare query or fragment on a base without a path gets the '/' of the empty path. */
  lemma ResolvedIsRfc3986(b: Url, r: Reference)
    requires UrlOk(b) && ReferenceOk(r)
    ensures Resolved(Recompose(b), RefString(r)) ==
      Some(Recompose(if Bare(b, r) then Transform(b, r).(path := "/") else Transform(b, r)))
    ensures Resolved(Recompose(b), RefString(r)) == Some(Recompose(Transform(b, r))) <==> !Bare(b, r)
  {
    ResolvedApart(b, r);
    var t, q, f := Transform(b, r), Query(r.query), Fragment(r.fragment);
    if r.authority.Some? {
      AuthorityAgrees(b, r);
      hide ByAuthority, RemoveDotSegments, Query, Fragment, ReferenceOk, UrlOk;
      Tailed(t.scheme + "://" + t.authority, t.path, q, f);
    } else if r.path != "" {
      PathAgrees(b, r);
      hide ByPath, RemoveDotSegments, Query, Fragment, ReferenceOk, UrlOk;
      Tailed(t.scheme + "://" + t.authority, t.path, q, f);
    } else {
      SuffixAgrees(b, r);
      hide BySuffix, ReferenceOk, UrlOk;
      SuffixComposes(b, r);
    }
  }

  lemma SuffixComposes(b: Url, r: Reference)
    requires r.authority.None? && r.path == ""
    ensures var root, t := b.scheme + "://" + b.authority, Transform(b, r);
      root + b.path + (if r.query.Some? then "" else Query(b.query)) +
      (if b.path == "" && (r.query.Some? || b.query.None?) then "/" else "") + (Query(r.query) + Fragment(r.fragment))
      == Recompose(if Bare(b, r) then t.(path := "/") else t)
    ensures Bare(b, r) ==> |Recompose(Transform(b, r).(path := "/"))| == |Recompose(Transform(b, r))| + 1
  {
    hide RemoveDotSegments;
  }

  // ---- url_resolve -----------------------------------------------------------------------------------------

  method Scan(s: string, from: nat, stops: string) returns (i: nat)
    requires from <= |s|
    ensures i == Before(s, from, stops)
  {
    i := from;
    while i < |s| && s[i] !in stops
      invariant from <= i <= |s| && Before(s, from, stops) == Before(s, i, stops)
    {
      i := i + 1;
    }
  }

  // strstr for "://"
  method ScanSep(s: string) returns (r: Option<nat>)
    ensures r == FindSep(s, 0)
  {
    var i := 0;
    while i < |s|
      invariant i <= |s| && FindSep(s, 0) == FindSep(s, i)
    {
      if SepAt(s, i) { return Some(i); }
      i := i + 1;
    }
    r := None;
  }

  // The base's directory: up to its last '/'.
  method LastSlash(path: string) returns (n: nat)
    ensures n <= |path| && path[..n] == Directory(path)
  {
    n := |path|;
    assert path[..n] == path;
    while n > 0 && path[n - 1] != '/'
      invariant n <= |path| && Directory(path) == Directory(path[..n])
    {
      assert path[..n][..n - 1] == path[..n - 1];
      n := n - 1;
    }
  }

  // The path that is normalized, its own or merged, does not fit into the buffer, or is refused.
  predicate NoRoomForPath(base: string, authEnd: nat, path: string)
    requires authEnd <= |base| && path != ""
  {
    if path[0] == '/' then |path| >= MAX_PATH_LEN || Refused(path, MAX_PATH_LEN)
    else
      var end := Before(base, authEnd, "?#");
      || |Directory(base[authEnd..end])| + |path| + 2 >= MAX_PATH_LEN
      || Refused(Merge(base[authEnd..end], path), MAX_PATH_LEN)
  }

  // The same, behind an authority of the reference's own.
  predicate NoRoomForAuthority(path: string)
    requires |path| >= 2
  {
    var slash := Slash(path, 2);
    |path| >= MAX_PATH_LEN || (slash < |path| && Refused(path[slash..], MAX_PATH_LEN - slash))
  }

  predicate NoRoom(base: string, ref: string) {
    ref != "" && !IsAbsolute(ref) &&
    match FindSep(base, 0)
    case None => false
    case Some(sep) =>
      var authEnd, path := Before(base, sep + 3, "/?#"), ref[..Before(ref, 0, "?#")];
      if path == "" then false
      else if |path| >= 2 && path[0] == '/' && path[1] == '/' then NoRoomForAuthority(path)
      else NoRoomForPath(base, authEnd, path)
  }

  // Base and reference are long or deep.
  predicate TooLong(base: string, ref: string) {
    |base| + |ref| + 2 >= 1536 || Slashes(base) + Slashes(ref) > 128
  }

  lemma {:induction false} DirectoryPrefix(path: string)
    requires path != "" && path[0] == '/'
    ensures Directory(path) != "" && Directory(path)[0] == '/'
  {
    if path[|path| - 1] != '/' { DirectoryPrefix(path[..|path| - 1]); }
  }

  lemma {:induction false} SlashesJoin(a: string, b: string)
    ensures Slashes(a + b) == Slashes(a) + Slashes(b)
  {
    if b == "" {
      assert a + b == a;
    } else {
      assert (a + b)[..|a + b| - 1] == a + b[..|b| - 1];
      SlashesJoin(a, b[..|b| - 1]);
    }
  }

  lemma SlashesIn(s: string, i: nat, j: nat)
    requires i <= j <= |s|
    ensures Slashes(s[i..j]) <= Slashes(s)
  {
    hide Slashes;
    assert s == s[..i] + (s[i..j] + s[j..]);
    SlashesJoin(s[..i], s[i..j] + s[j..]);
    SlashesJoin(s[i..j], s[j..]);
  }

  // A merged path has a leading '/', and is no longer and no deeper than base and reference together.
  lemma MergedFits(base: string, sep: nat, authEnd: nat, end: nat, ref: string, tailAt: nat)
    requires sep + 3 <= authEnd <= end <= |base| && SepAt(base, sep) && 0 < tailAt <= |ref|
    requires authEnd < |base| ==> base[authEnd] in "/?#"
    requires end == Before(base, authEnd, "?#")
    ensures var whole := Merge(base[authEnd..end], ref[..tailAt]);
      && whole != "" && whole[0] == '/' && |whole| <= |base| + |ref| && Slashes(whole) <= Slashes(base) + Slashes(ref)
    ensures |Directory(base[authEnd..end])| + tailAt <= |base| + |ref|
  {
    var path := base[authEnd..end];
    assert path == "" || path[0] == '/';
    SlashesIn(ref, 0, tailAt);
    assert ref[0..tailAt] == ref[..tailAt];
    DirectoryIs(path);
    DirectorySlashes(base, sep, authEnd, end);
    if path != "" { DirectoryPrefix(path); }
    var dir := if Directory(path) == "" then "/" else Directory(path);
    hide Slashes, Before, Directory;
    SlashesJoin(dir, ref[..tailAt]);
  }

  lemma DirectorySlashes(base: string, sep: nat, authEnd: nat, end: nat)
    requires authEnd <= end <= |base| && SepAt(base, sep)
    ensures var dir := Directory(base[authEnd..end]); Slashes(if dir == "" then "/" else dir) <= Slashes(base)
  {
    var path := base[authEnd..end];
    DirectoryIs(path);
    var n := |Directory(path)|;
    SlashesIn(base, authEnd, authEnd + n);
    assert base[authEnd..authEnd + n] == path[..n] == Directory(path);
    SlashesIn(base, sep + 1, sep + 2);
    assert base[sep + 1..sep + 2] == "/";
    hide Slashes, Directory;
  }

  // What url_resolve returns into a buffer of so many characters.
  function Fitting(base: string, ref: string, room: nat): Option<string> {
    var r := Resolved(base, ref);
    if r.None? || NoRoom(base, ref) || |r.value| >= room then None else r
  }

  /** There is room for whatever is neither long nor deep. */
  lemma NoRoomOnlyIfLong(base: string, ref: string)
    requires NoRoom(base, ref)
    ensures TooLong(base, ref)
  {
    var sep, tailAt := FindSep(base, 0).value, Before(ref, 0, "?#");
    var authEnd, path := Before(base, sep + 3, "/?#"), ref[..tailAt];
    hide IsAbsolute, Slashes, Directory, Before, FindSep, Refused, Slash;
    if |path| >= 2 && path[0] == '/' && path[1] == '/' {
      var slash := Slash(path, 2);
      if |path| < MAX_PATH_LEN {
        RefusedOnlyIfLong(path[slash..], MAX_PATH_LEN - slash);
        SlashesIn(ref, slash, tailAt);
        assert ref[slash..tailAt] == path[slash..];
      }
    } else if path[0] == '/' {
      if |path| < MAX_PATH_LEN {
        RefusedOnlyIfLong(path, MAX_PATH_LEN);
        SlashesIn(ref, 0, tailAt);
        assert ref[0..tailAt] == path;
      }
    } else {
      var end := Before(base, authEnd, "?#");
      MergedFits(base, sep, authEnd, end, ref, tailAt);
      if |Directory(base[authEnd..end])| + |path| + 2 < MAX_PATH_LEN {
        RefusedOnlyIfLong(Merge(base[authEnd..end], path), MAX_PATH_LEN);
      }
    }
  }

  // The forms of a relative reference with a path, each without its query and fragment.
  method ResolveAuthority(base: string, sep: nat, path: string) returns (front: Option<string>)
    requires sep <= |base| && 2 <= |path| && path[0] == '/' && path[1] == '/'
    ensures front == if NoRoomForAuthority(path) then None else Some(ByAuthority(base, sep, path))
  {
    hide RemoveDotSegments, Slash, Refused;
    if |path| >= MAX_PATH_LEN { return None; }
    var slash := FindSlash(path, 2);
    SlashFrom(path, slash);
    var rest := "";
    if slash < |path| {
      var normal := NormalizePath(path[slash..], MAX_PATH_LEN - slash);
      if normal.None? { return None; }
      rest := normal.value;
    }
    front := Some(base[..sep] + ":" + path[..slash] + rest);
  }

  method ResolvePath(base: string, authEnd: nat, path: string) returns (front: Option<string>)
    requires authEnd <= |base| && path != ""
    requires authEnd < |base| ==> base[authEnd] in "/?#"
    ensures front == if NoRoomForPath(base, authEnd, path) then None else Some(ByPath(base, authEnd, path))
  {
    hide RemoveDotSegments, Directory, Before, Refused;
    var whole := path;
    if path[0] == '/' {
      if |path| >= MAX_PATH_LEN { return None; }
    } else {
      var end := Scan(base, authEnd, "?#");
      MergedLeads(base[authEnd..end], path);
      var dir := LastSlash(base[authEnd..end]);
      if dir + |path| + 2 >= MAX_PATH_LEN { return None; }
      whole := if dir == 0 then "/" + path else base[authEnd..end][..dir] + path;
    }
    var normal := NormalizePath(whole, MAX_PATH_LEN);
    front := if normal.Some? then Some(base[..authEnd] + normal.value) else None;
  }

  lemma MergedLeads(basePath: string, path: string)
    requires basePath == "" || basePath[0] == '/'
    ensures Led(Merge(basePath, path))
  {
    if basePath != "" { DirectoryPrefix(basePath); }
  }

  /** url_resolve: the resolved reference, if there is one, no path on the way is too long or too deep, and
      the result fits into out; an absolute reference is resolved already. */
  method UrlResolve(base: string, ref: string, room: nat) returns (out: Option<string>)
    ensures out == Fitting(base, ref, room)
    ensures IsAbsolute(ref) ==> out == if |ref| < room then Some(ref) else None
    ensures out.None? ==> Resolved(base, ref).None? || |Resolved(base, ref).value| >= room || TooLong(base, ref)
  {
    if NoRoom(base, ref) { NoRoomOnlyIfLong(base, ref); }
    if ref == "" || room == 0 { return None; }
    var absolute := UrlIsAbsolute(ref);
    if absolute { return if |ref| >= room then None else Some(ref); }
    hide IsAbsolute, ByPath, ByAuthority, TooLong, NoRoomForPath, NoRoomForAuthority;
    var sep := ScanSep(base);
    if sep.None? { return None; }
    var authEnd := Scan(base, sep.value + 3, "/?#");
    var tailAt := Scan(ref, 0, "?#");
    var tail := ref[tailAt..];
    var front: Option<string>;
    if tailAt == 0 {
      var end := Scan(base, authEnd, if ref[0] == '#' then "#" else "?#");
      front := Some(base[..end] + if end == authEnd then "/" else "");
    } else if tailAt >= 2 && ref[0] == '/' && ref[1] == '/' {
      front := ResolveAuthority(base, sep.value, ref[..tailAt]);
    } else {
      front := ResolvePath(base, authEnd, ref[..tailAt]);
    }
    if front.None? || |front.value + tail| >= room { return None; }
    out := Some(front.value + tail);
  }

  lemma SlashFrom(path: string, slash: nat)
    requires 2 <= |path| && slash == 2 + Slash(path[2..], 0) <= |path|
    ensures slash == Slash(path, 2)
  {
    assert forall k | 2 <= k < slash :: path[k] == path[2..][k - 2];
    SlashAt(path, 2, slash);
  }
}
