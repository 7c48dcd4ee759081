/** src/m3u8.c: what an EXT-X-KEY tag says about the segments after it (section 4.3.2.4 of RFC 8216). */
module M3u8Keys {
  import opened Prelude
  import opened M3u8Attrs
  import AesCipher
  import HlsCrypt
  import M3u8
  import UrlUtil

  // The sizes of the buffers for METHOD, URI and IV, without the NUL.
  const METHOD_ROOM := 31
  const URI_ROOM := 2047
  const IV_ROOM := 63

  // The value of the last attribute of a name.
  function LastOf(attrs: seq<Attr>, name: string): string {
    if attrs == [] then ""
    else if attrs[|attrs| - 1].key == name then attrs[|attrs| - 1].value
    else LastOf(attrs[..|attrs| - 1], name)
  }

  // Only the front of this attribute is known.
  predicate Shortened(a: Attr) {
    || (a.key == "URI" && (a.truncated || |a.value| > URI_ROOM))
    || (a.key == "IV" && (a.truncated || |a.value| > IV_ROOM))
  }

  predicate AnyShortened(attrs: seq<Attr>) {
    exists k: nat :: k < |attrs| && Shortened(attrs[k])
  }

  datatype KeyText = KeyText(how: string, uri: string, iv: string, cut: bool)

  function KeyTextOf(attrs: seq<Attr>): KeyText {
    KeyText(Cut(LastOf(attrs, "METHOD"), METHOD_ROOM), Cut(LastOf(attrs, "URI"), URI_ROOM),
            Cut(LastOf(attrs, "IV"), IV_ROOM), AnyShortened(attrs))
  }

  // One more attribute, as the loop over a tag takes it.
  function Take(k: KeyText, a: Attr): KeyText {
    if a.key == "METHOD" then k.(how := Cut(a.value, METHOD_ROOM))
    else if a.key == "URI" then k.(uri := Cut(a.value, URI_ROOM), cut := k.cut || a.truncated || |a.value| > URI_ROOM)
    else if a.key == "IV" then k.(iv := Cut(a.value, IV_ROOM), cut := k.cut || a.truncated || |a.value| > IV_ROOM)
    else k
  }

  lemma TakesOne(attrs: seq<Attr>, a: Attr)
    ensures KeyTextOf(attrs + [a]) == Take(KeyTextOf(attrs), a)
  {
    var all := attrs + [a];
    assert all[..|all| - 1] == attrs && all[|all| - 1] == a;
    if AnyShortened(attrs) {
      var k: nat :| k < |attrs| && Shortened(attrs[k]);
      assert Shortened(all[k]);
    }
    if AnyShortened(all) {
      var k: nat :| k < |all| && Shortened(all[k]);
      assert k < |attrs| ==> Shortened(attrs[k]);
    }
    if Shortened(a) { assert Shortened(all[|attrs|]); }
  }

  /** The loop over an EXT-X-KEY tag: of each name the last value counts, and a URI or IV of which only the
      front is known is noticed wherever it stands. */
  method Gather(args: string) returns (k: KeyText)
    ensures k == KeyTextOf(Attrs(args))
  {
    k := KeyText("", "", "", false);
    ghost var seen: seq<Attr> := [];
    var at, more := 0, true;
    Begins(args);
    hide *;
    while more
      invariant more ==> Midway(args, at, seen)
      invariant !more ==> Attrs(args) == seen
      invariant k == KeyTextOf(seen)
      decreases more, |args| - at
    {
      Steps(args, at, seen);
      var r := Scan(args, at);
      if r.None? {
        more := false;
      } else {
        TakesOne(seen, r.value.0);
        k := TakeOne(k, r.value.0);
        seen := seen + [r.value.0];
        at := r.value.1;
      }
    }
  }

  // The attributes before a position are known, the others still to come.
  predicate Midway(args: string, at: nat, seen: seq<Attr>) {
    at <= |args| && Attrs(args) == seen + Attrs(args[at..])
  }

  lemma Begins(args: string)
    ensures Midway(args, 0, []) && KeyTextOf([]) == KeyText("", "", "", false)
  {
    assert args[0..] == args;
  }

  lemma Steps(args: string, at: nat, seen: seq<Attr>)
    requires Midway(args, at, seen)
    ensures at <= |args|
    ensures AttrNext(args[at..]).None? ==> Attrs(args) == seen
    ensures forall a, next: nat | next <= |args| && AttrNext(args[at..]) == Some((a, args[next..])) ::
      Midway(args, next, seen + [a]) && next > at
  {
    hide AttrNext;
    var p := args[at..];
    match AttrNext(p)
    case None =>
      assert Attrs(p) == [];
    case Some((a, rest)) =>
      assert seen + Attrs(p) == seen + [a] + Attrs(rest);
  }

  // The branches of the loop over a tag, with copy_trunc.
  method TakeOne(k: KeyText, a: Attr) returns (k': KeyText)
    ensures k' == Take(k, a)
  {
    k' := k;
    if a.key == "METHOD" {
      var how, _ := CopyTrunc(a.value, METHOD_ROOM);
      k' := k.(how := how);
    } else if a.key == "URI" {
      var uri, cut := CopyTrunc(a.value, URI_ROOM);
      k' := k.(uri := uri, cut := k.cut || a.truncated || cut);
    } else if a.key == "IV" {
      var iv, cut := CopyTrunc(a.value, IV_ROOM);
      k' := k.(iv := iv, cut := k.cut || a.truncated || cut);
    }
  }

  method CopyTrunc(src: string, room: nat) returns (dst: string, cut: bool)
    ensures dst == Cut(src, room) && (cut <==> |src| > room) && (!cut ==> dst == src)
  {
    cut := |src| > room;
    dst := if cut then src[..room] else src;
  }

  function AsBlock(iv: Bytes): AesCipher.Block
    requires |iv| == 16
  {
    seq(16, i requires 0 <= i < 16 => iv[i] as int as bv8)
  }

  lemma {:induction false} HexLength(s: string)
    requires |s| % 2 == 0
    ensures HexBytes(s).Some? ==> 2 * |HexBytes(s).value| == |s|
  {
    if s != "" { HexLength(s[2..]); }
  }

  // What a tag comes down to.
  function KeyLine(base: string, k: KeyText): M3u8.Line {
    if k.how == "" || k.how == "NONE" then M3u8.Key(M3u8.NoEncryption, None, None)
    else if k.how != "AES-128" || k.cut then M3u8.Key(M3u8.Unusable, None, None)
    else
      var iv := ParseIv(k.iv);
      M3u8.Key(M3u8.Aes128, if k.uri == "" then None else UrlUtil.Fitting(base, k.uri, URI_ROOM + 1),
               if iv.Some? && |iv.value| == 16 then Some(AsBlock(iv.value)) else None)
  }

  /** What the segments after a tag get: an AES-128 key can be used only if neither its URI nor its IV came
      cut short, and its URI resolves; any other method makes them unusable, and none makes them plain. */
  method Decide(base: string, k: KeyText) returns (line: M3u8.Line)
    ensures line == KeyLine(base, k)
    ensures line.Key?
    ensures line.how.NoEncryption? <==> k.how == "" || k.how == "NONE"
    ensures line.how.Aes128? <==> k.how == "AES-128" && !k.cut
    ensures line.uri == if line.how.Aes128? && k.uri != "" then UrlUtil.Fitting(base, k.uri, URI_ROOM + 1) else None
    ensures line.iv.Some? <==> line.how.Aes128? && ParseIv(k.iv).Some?
    ensures line.iv.Some? ==> |ParseIv(k.iv).value| == 16 && line.iv.value == AsBlock(ParseIv(k.iv).value)
  {
    hide UrlUtil.Fitting, AsBlock, HexBytes;
    if k.how == "" || k.how == "NONE" { return M3u8.Key(M3u8.NoEncryption, None, None); }
    if k.how != "AES-128" || k.cut { return M3u8.Key(M3u8.Unusable, None, None); }
    var uri, iv := None, ParseIv(k.iv);
    if k.uri != "" { uri := UrlUtil.UrlResolve(base, k.uri, URI_ROOM + 1); }
    if iv.Some? { HexLength(k.iv[2..]); }
    line := M3u8.Key(M3u8.Aes128, uri, if iv.Some? then Some(AsBlock(iv.value)) else None);
  }

  function Written(ws: seq<M3u8Attrs.Written>): seq<Attr> {
    seq(|ws|, k requires 0 <= k < |ws| => Attr(ws[k].key, ws[k].value, false))
  }

  lemma {:induction false} LastIs(attrs: seq<Attr>, j: nat)
    requires j < |attrs| && forall k | j < k < |attrs| :: attrs[k].key != attrs[j].key
    ensures LastOf(attrs, attrs[j].key) == attrs[j].value
    decreases |attrs|
  {
    if j < |attrs| - 1 { LastIs(attrs[..|attrs| - 1], j); }
  }

  // The last of its name.
  predicate LastNamed(ws: seq<M3u8Attrs.Written>, j: nat, name: string) {
    j < |ws| && ws[j].key == name && forall k | j < k < |ws| :: ws[k].key != name
  }

  // The three attributes of a usable key, each the last of its name.
  ghost predicate NamesKey(ws: seq<M3u8Attrs.Written>, m: nat, u: nat, v: nat, iv: Bytes) {
    && (forall k | 0 <= k < |ws| :: WrittenOk(ws[k]))
    && (forall k | 0 <= k < |ws| :: ws[k].key == "IV" ==> |ws[k].value| <= 63)
    && LastNamed(ws, m, "METHOD") && ws[m].value == "AES-128"
    && LastNamed(ws, u, "URI")
    && LastNamed(ws, v, "IV") && |iv| == 16 && ws[v].value == "0x" + PrintHex(iv)
  }

  lemma {:induction false} TakesKey(ws: seq<M3u8Attrs.Written>, m: nat, u: nat, v: nat, iv: Bytes)
    requires NamesKey(ws, m, u, v, iv)
    ensures KeyTextOf(Written(ws)) == KeyText("AES-128", ws[u].value, "0x" + PrintHex(iv), false)
  {
    var attrs := Written(ws);
    LastIs(attrs, m);
    LastIs(attrs, u);
    LastIs(attrs, v);
    NoneShortened(ws);
    assert WrittenOk(ws[u]);
    hide AnyShortened, WrittenOk, LastOf, Written;
  }

  lemma {:induction false} NoneShortened(ws: seq<M3u8Attrs.Written>)
    requires forall k | 0 <= k < |ws| :: WrittenOk(ws[k])
    requires forall k | 0 <= k < |ws| :: ws[k].key == "IV" ==> |ws[k].value| <= 63
    ensures !AnyShortened(Written(ws))
  {
    forall k: nat | k < |ws|
      ensures !Shortened(Written(ws)[k])
    {
      assert WrittenOk(ws[k]);
    }
  }

  /** An EXT-X-KEY tag reads back: with METHOD=AES-128, a URI and an IV among its attributes, in any order
      and form, the key is found, whole. */
  lemma {:induction false} KeyTagReadsBack(ws: seq<M3u8Attrs.Written>, m: nat, u: nat, v: nat, iv: Bytes, base: string)
    requires NamesKey(ws, m, u, v, iv)
    ensures KeyTextOf(Attrs(PrintAll(ws))) == KeyText("AES-128", ws[u].value, "0x" + PrintHex(iv), false)
    ensures ParseIv("0x" + PrintHex(iv)) == Some(iv) && |iv| == 16
    ensures KeyLine(base, KeyTextOf(Attrs(PrintAll(ws)))) == M3u8.Key(M3u8.Aes128, KeyUri(base, ws[u].value), Some(AsBlock(iv)))
  {
    AttrsReadBack(ws);
    assert Attrs(PrintAll(ws)) == Written(ws);
    TakesKey(ws, m, u, v, iv);
    IvReadsBack(iv, "");
    KeyLineIs(base, ws[u].value, "0x" + PrintHex(iv));
    assert |iv| == 16;
    hide *;
  }

  function KeyUri(base: string, uri: string): Option<string> {
    if uri == "" then None else UrlUtil.Fitting(base, uri, 2048)
  }

  lemma KeyLineIs(base: string, uri: string, iv: string)
    ensures var bytes := ParseIv(iv);
      KeyLine(base, KeyText("AES-128", uri, iv, false)) ==
        M3u8.Key(M3u8.Aes128, KeyUri(base, uri), if bytes.Some? && |bytes.value| == 16 then Some(AsBlock(bytes.value)) else None)
  {}

  // A usable key without an IV.
  ghost predicate NamesKeyOnly(ws: seq<M3u8Attrs.Written>, m: nat, u: nat) {
    && (forall k | 0 <= k < |ws| :: WrittenOk(ws[k]) && ws[k].key != "IV")
    && LastNamed(ws, m, "METHOD") && ws[m].value == "AES-128"
    && LastNamed(ws, u, "URI")
  }

  lemma {:induction false} NoneOf(attrs: seq<Attr>, name: string)
    requires forall k | 0 <= k < |attrs| :: attrs[k].key != name
    ensures LastOf(attrs, name) == ""
  {
    if attrs != [] { NoneOf(attrs[..|attrs| - 1], name); }
  }

  lemma TakesKeyOnly(ws: seq<M3u8Attrs.Written>, m: nat, u: nat)
    requires NamesKeyOnly(ws, m, u)
    ensures KeyTextOf(Written(ws)) == KeyText("AES-128", ws[u].value, "", false)
  {
    var attrs := Written(ws);
    LastIs(attrs, m);
    LastIs(attrs, u);
    NoneOf(attrs, "IV");
    NoneShortened(ws);
    assert WrittenOk(ws[u]);
    hide AnyShortened, WrittenOk, LastOf, Written;
  }

  /** And one without an IV reads back as having none; a segment it applies to then gets the IV of its number. */
  lemma KeyTagWithoutIv(ws: seq<M3u8Attrs.Written>, m: nat, u: nat, base: string, lines: seq<M3u8.Line>, i: nat)
    requires NamesKeyOnly(ws, m, u)
    ensures KeyTextOf(Attrs(PrintAll(ws))) == KeyText("AES-128", ws[u].value, "", false)
    ensures KeyLine(base, KeyTextOf(Attrs(PrintAll(ws)))) == M3u8.Key(M3u8.Aes128, KeyUri(base, ws[u].value), None)
    ensures i < |lines| && M3u8.Kept(lines, i) && M3u8.KeyInForce(lines, i) == KeyLine(base, KeyTextOf(Attrs(PrintAll(ws)))) ==>
      var s := M3u8.SegmentAt(lines, i); s.encrypted && s.iv == HlsCrypt.SequenceIv(s.seqNo)
  {
    AttrsReadBack(ws);
    assert Attrs(PrintAll(ws)) == Written(ws);
    TakesKeyOnly(ws, m, u);
    KeyLineIs(base, ws[u].value, "");
    assert ParseIv("") == None;
    hide LastOf, Attrs, PrintAll, Written, KeyLine, KeyUri;
  }
}
