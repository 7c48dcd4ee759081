/** src/icy.c: separating the audio of an Icecast body from the metadata blocks in it. */
module Icy {
  import opened Prelude

  const META_MAX := 255 * 16
  const TITLE_SIZE := 256

  // ---- titles ----------------------------------------------------------------------------------------

  // "StreamTitle='" and "';"
  const KEY: Bytes := [83, 116, 114, 101, 97, 109, 84, 105, 116, 108, 101, 61, 39]
  const END: Bytes := [39, 59]

  predicate At(hay: Bytes, needle: Bytes, i: nat) {
    i + |needle| <= |hay| && hay[i..i + |needle|] == needle
  }

  // The first place at or after i where needle occurs.
  function Find(hay: Bytes, needle: Bytes, i: nat): (r: Option<nat>)
    requires i <= |hay|
    ensures r.Some? ==> i <= r.value && At(hay, needle, r.value)
    ensures forall j | i <= j < (if r.Some? then r.value else |hay| + 1) :: !At(hay, needle, j)
    decreases |hay| - i
  {
    if At(hay, needle, i) then Some(i)
    else if i == |hay| then None
    else Find(hay, needle, i + 1)
  }

  // What precedes the padding.
  function Text(meta: Bytes): (r: Bytes)
    ensures r <= meta && 0 !in r && (r == meta || (|r| < |meta| && meta[|r|] == 0))
  {
    if meta == [] || meta[0] == 0 then [] else [meta[0]] + Text(meta[1..])
  }

  predicate Continuation(b: byte) {
    128 <= b < 192
  }

  // Where to cut a title so as not to split a UTF-8 sequence (section 3 of RFC 3629).
  function CutAt(v: Bytes, n: nat): (r: nat)
    requires n < |v|
    ensures r <= n && (r == 0 || !Continuation(v[r]))
    ensures forall k | r < k <= n :: Continuation(v[k])
  {
    if n > 0 && Continuation(v[n]) then CutAt(v, n - 1) else n
  }

  // A title as it is shown: longer than 255 bytes, it is cut at the last start of a character there is.
  function Fitting(v: Bytes): (r: Bytes)
    ensures r <= v && |r| < 256 && (|v| < 256 ==> r == v)
    ensures |v| >= 256 ==>
      && (r == [] || !(0x80 <= v[|r|] < 0xC0))
      && forall k | |r| < k < 256 :: 0x80 <= v[k] < 0xC0
  {
    if |v| > TITLE_SIZE - 1 then v[..CutAt(v, TITLE_SIZE - 1)] else v
  }

  // icy_extract_title
  function Title(meta: Bytes): Option<Bytes> {
    var text := Text(meta);
    match Find(text, KEY, 0)
    case None => None
    case Some(at) =>
      match Find(text, END, at + |KEY|)
      case None => None
      case Some(end) => Some(Fitting(text[at + |KEY|..end]))
  }

  // What the two marks spell.
  lemma MarksSpell()
    ensures |KEY| == 13 && forall i | 0 <= i < 13 :: KEY[i] as int == "StreamTitle='"[i] as int
    ensures |END| == 2 && END[0] as int == '\'' as int && END[1] as int == ';' as int
  {
    assert forall i | 0 <= i < 13 :: KEY[i] as int == "StreamTitle='"[i] as int;
  }

  /** A title without NUL or "';" is read back from the block announcing it, whatever follows, up to the
      255 bytes there is room for. */
  lemma TitleReadsBack(title: Bytes, rest: Bytes)
    requires 0 !in title
    requires forall i: nat | i < |title| :: !At(title, END, i)
    ensures Title(KEY + title + END + rest) == Some(Fitting(title))
    ensures |title| < 256 ==> Title(KEY + title + END + rest) == Some(title)
  {
    FrontStays(KEY + title + END, rest);
    FindsTitle(Text(KEY + title + END + rest), KEY, title);
    hide Text, Find;
  }

  // A key, a title and the end mark, in front.
  lemma FindsTitle(text: Bytes, key: Bytes, title: Bytes)
    requires key + title + END <= text
    requires forall i: nat | i < |title| :: !At(title, END, i)
    ensures Find(text, key, 0) == Some(0)
    ensures Find(text, END, |key|) == Some(|key| + |title|)
    ensures text[|key|..|key| + |title|] == title
  {
    var at, end := |key|, |key| + |title|;
    var front := key + title + END;
    assert text[..|front|] == front;
    assert front[..at] == key && front[at..end] == title && front[end..] == END;
    assert At(text, key, 0) && At(text, END, end);
    forall j | at <= j < end
      ensures !At(text, END, j)
    {
      NotBefore(text, title, at, j);
    }
  }

  lemma NotBefore(text: Bytes, title: Bytes, at: nat, j: nat)
    requires at <= j < at + |title| && at + |title| + 2 <= |text|
    requires text[at..at + |title|] == title && text[at + |title|] == 39
    requires !At(title, END, j - at)
    ensures !At(text, END, j)
  {
    EndAt(text, j);
    if j + 1 < at + |title| {
      EndAt(title, j - at);
      assert text[j] == title[j - at] && text[j + 1] == title[j + 1 - at];
    }
  }

  lemma EndAt(hay: Bytes, i: nat)
    ensures At(hay, END, i) <==> i + 2 <= |hay| && hay[i] == 39 && hay[i + 1] == 59
  {
    if i + 2 <= |hay| { assert hay[i..i + 2] == [hay[i], hay[i + 1]]; }
  }

  lemma {:induction false} FrontStays(front: Bytes, rest: Bytes)
    requires 0 !in front
    ensures front <= Text(front + rest)
  {
    if front != [] {
      assert (front + rest)[1..] == front[1..] + rest;
      FrontStays(front[1..], rest);
    }
  }

  // ---- the body, byte by byte -------------------------------------------------------------------------

  // What is expected next: audio bytes, the length of a block, or more of a block.
  datatype Mode = Audio(left: nat) | Len | Meta(left: nat, got: Bytes)

  datatype Parser = Parser(metaint: nat, mode: Mode, last: Bytes)

  predicate ParserOk(p: Parser) {
    match p.mode
    case Audio(left) => p.metaint > 0 ==> 0 < left <= p.metaint
    case Len => p.metaint > 0
    case Meta(left, got) => p.metaint > 0 && left > 0 && |got| + left <= META_MAX
  }

  function Start(metaint: nat): Parser {
    Parser(metaint, Audio(metaint), [])
  }

  // What a feed hands out: audio bytes, and the titles shown.
  datatype Out = Out(p: Parser, audio: Bytes, titles: seq<Bytes>)

  // icy_finish_block: a title is shown if it is neither empty nor the last one.
  function NextTitle(meta: Bytes, last: Bytes): (Bytes, seq<Bytes>) {
    match Title(meta)
    case None => (last, [])
    case Some(t) => if t == [] || t == last then (last, []) else (t, [t])
  }

  function Finished(p: Parser, meta: Bytes): Out {
    var (last, shown) := NextTitle(meta, p.last);
    Out(p.(mode := Audio(p.metaint), last := last), [], shown)
  }

  function Byte(p: Parser, b: byte): Out
    requires ParserOk(p)
  {
    if p.metaint == 0 then Out(p, [b], [])
    else
      match p.mode
      case Audio(left) => Out(p.(mode := if left == 1 then Len else Audio(left - 1)), [b], [])
      case Len => Out(p.(mode := if b == 0 then Audio(p.metaint) else Meta(b as int * 16, [])), [], [])
      case Meta(left, got) =>
        if left == 1 then Finished(p, got + [b]) else Out(p.(mode := Meta(left - 1, got + [b])), [], [])
  }

  function Then(a: Out, b: Out): Out {
    Out(b.p, a.audio + b.audio, a.titles + b.titles)
  }

  function Feed(p: Parser, data: Bytes): (o: Out)
    requires ParserOk(p)
    ensures ParserOk(o.p) && o.p.metaint == p.metaint
    decreases |data|
  {
    if data == [] then Out(p, [], []) else Then(Byte(p, data[0]), Feed(Byte(p, data[0]).p, data[1..]))
  }

  /** Cutting a body differently changes nothing. */
  lemma {:induction false} FeedJoins(p: Parser, a: Bytes, b: Bytes)
    requires ParserOk(p)
    ensures Feed(p, a + b) == Then(Feed(p, a), Feed(Feed(p, a).p, b))
    decreases |a|
  {
    hide Byte;
    if a == [] {
      assert [] + b == b;
    } else {
      assert (a + b)[1..] == a[1..] + b;
      assert ParserOk(Byte(p, a[0]).p) by { ByteOk(p, a[0]); }
      FeedJoins(Byte(p, a[0]).p, a[1..], b);
      Joins(Byte(p, a[0]), Feed(Byte(p, a[0]).p, a[1..]), Feed(Feed(p, a).p, b));
    }
  }

  lemma ByteOk(p: Parser, b: byte)
    requires ParserOk(p)
    ensures ParserOk(Byte(p, b).p) && Byte(p, b).p.metaint == p.metaint
  {
    hide Title;
  }

  lemma Joins(a: Out, b: Out, c: Out)
    ensures Then(Then(a, b), c) == Then(a, Then(b, c))
  {}

  // A stretch of audio within one interval.
  lemma {:induction false} AudioStretch(p: Parser, data: Bytes)
    requires ParserOk(p) && p.metaint > 0 && p.mode.Audio? && |data| <= p.mode.left
    ensures Feed(p, data) ==
      Out(p.(mode := if |data| == p.mode.left then Len else Audio(p.mode.left - |data|)), data, [])
    decreases |data|
  {
    if data != [] {
      assert data == [data[0]] + data[1..];
      if |data| == 1 {
        assert Feed(Byte(p, data[0]).p, []) == Out(Byte(p, data[0]).p, [], []);
      } else {
        AudioStretch(Byte(p, data[0]).p, data[1..]);
      }
    }
  }

  // A stretch of a metadata block.
  lemma {:induction false} MetaStretch(p: Parser, data: Bytes)
    requires ParserOk(p) && p.mode.Meta? && |data| <= p.mode.left
    ensures Feed(p, data) ==
      if |data| == p.mode.left then Finished(p, p.mode.got + data)
      else Out(p.(mode := Meta(p.mode.left - |data|, p.mode.got + data)), [], [])
    decreases |data|
  {
    hide Title;
    if data == [] {
      assert p.mode.got + [] == p.mode.got;
    } else {
      assert p.mode.got + data == p.mode.got + [data[0]] + data[1..];
      if |data| == 1 {
        assert data[1..] == [] && data == [data[0]];
        hide Finished;
        assert Feed(Byte(p, data[0]).p, []) == Out(Byte(p, data[0]).p, [], []);
      } else {
        MetaStretch(Byte(p, data[0]).p, data[1..]);
      }
    }
  }

  // ---- the round trip -----------------------------------------------------------------------------------

  // A block: its length byte and, if that is not zero, its bytes.
  predicate BlockOk(meta: Bytes) {
    |meta| <= META_MAX && |meta| % 16 == 0
  }

  // How many blocks go with n audio bytes: one after every metaint of them.
  function Blocks(metaint: nat, n: nat): nat
    requires metaint > 0
  {
    if n < metaint then 0 else 1 + Blocks(metaint, n - metaint)
  }

  ghost predicate BlocksOk(metas: seq<Bytes>) {
    forall k | 0 <= k < |metas| :: BlockOk(metas[k])
  }

  // The body of a stream: a block after every metaint audio bytes.
  ghost function Body(metaint: nat, audio: Bytes, metas: seq<Bytes>): Bytes
    requires metaint > 0 && |metas| == Blocks(metaint, |audio|) && BlocksOk(metas)
    decreases |metas|
  {
    if metas == [] then audio
    else
      audio[..metaint] + [(|metas[0]| / 16) as byte] + metas[0] + Body(metaint, audio[metaint..], metas[1..])
  }

  // The titles shown for blocks: those that are neither empty nor the same as the one before.
  function Shown(last: Bytes, metas: seq<Bytes>): seq<Bytes>
    decreases |metas|
  {
    if metas == [] then []
    else
      match Title(metas[0])
      case None => Shown(last, metas[1..])
      case Some(t) => if t == [] || t == last then Shown(last, metas[1..]) else [t] + Shown(t, metas[1..])
  }

  // A length byte and its block.
  lemma BlockFed(p: Parser, meta: Bytes)
    requires ParserOk(p) && p.mode.Len? && BlockOk(meta) && (meta == [] ==> Title(meta).None?)
    ensures Feed(p, [(|meta| / 16) as byte] + meta) == Finished(p, meta)
  {
    var data := [(|meta| / 16) as byte] + meta;
    assert data[1..] == meta;
    hide Title;
    if meta != [] {
      MetaStretch(Byte(p, data[0]).p, meta);
      assert [] + meta == meta;
    }
  }

  lemma NoTitleInNothing()
    ensures Title([]).None?
  {}

  // One interval of audio, its block, and what follows.
  lemma IntervalFed(p: Parser, first: Bytes, meta: Bytes, block: Bytes, rest: Bytes)
    requires p.metaint > 0 && p.mode == Audio(p.metaint) && |first| == p.metaint && BlockOk(meta)
    requires block == [(|meta| / 16) as byte] + meta
    ensures var f, o := Finished(p, meta), Feed(p, first + (block + rest));
      o.audio == first + Feed(f.p, rest).audio && o.titles == f.titles + Feed(f.p, rest).titles
  {
    NoTitleInNothing();
    var p1 := p.(mode := Len);
    AudioStretch(p, first);
    BlockFed(p1, meta);
    assert Finished(p1, meta) == Finished(p, meta) && Finished(p, meta).audio == [];
    hide Feed, Finished, Byte;
    FeedJoins(p, first, block + rest);
    FeedJoins(p1, block, rest);
    var f := Finished(p, meta);
    var g := Feed(f.p, rest);
    assert [] + g.audio == g.audio && [] + (f.titles + g.titles) == f.titles + g.titles;
  }

  lemma BodyUnfolds(k: nat, audio: Bytes, metas: seq<Bytes>, first: Bytes, block: Bytes, rest: Bytes)
    requires k > 0 && |metas| == Blocks(k, |audio|) && BlocksOk(metas) && metas != []
    requires first == audio[..k] && block == [(|metas[0]| / 16) as byte] + metas[0]
    requires rest == Body(k, audio[k..], metas[1..])
    ensures Body(k, audio, metas) == first + (block + rest)
  {}

  lemma ShownFinished(p: Parser, metas: seq<Bytes>)
    requires metas != []
    ensures var f := Finished(p, metas[0]);
      f.titles + Shown(f.p.last, metas[1..]) == Shown(p.last, metas) &&
      f.p.metaint == p.metaint && f.p.mode == Audio(p.metaint)
  {
    hide Title;
  }

  lemma BlocksOkTail(metas: seq<Bytes>)
    requires BlocksOk(metas) && metas != []
    ensures BlocksOk(metas[1..]) && BlockOk(metas[0])
  {}

  lemma {:induction false} BodyFed(p: Parser, audio: Bytes, metas: seq<Bytes>)
    requires p.metaint > 0 && p.mode == Audio(p.metaint)
    requires |metas| == Blocks(p.metaint, |audio|) && BlocksOk(metas)
    ensures Feed(p, Body(p.metaint, audio, metas)).audio == audio
    ensures Feed(p, Body(p.metaint, audio, metas)).titles == Shown(p.last, metas)
    decreases |metas|
  {
    var k := p.metaint;
    hide Feed, Title, NextTitle;
    if metas == [] {
      AudioStretch(p, audio);
    } else {
      BlocksOkTail(metas);
      var f, rest := Finished(p, metas[0]), Body(k, audio[k..], metas[1..]);
      var first, block := audio[..k], [(|metas[0]| / 16) as byte] + metas[0];
      BodyUnfolds(k, audio, metas, first, block, rest);
      hide Body, Finished, BlocksOk;
      IntervalFed(p, first, metas[0], block, rest);
      ShownFinished(p, metas);
      hide Shown;
      BodyFed(f.p, audio[k..], metas[1..]);
      assert audio == audio[..k] + audio[k..];
    }
  }

  // A series of feeds.
  function Feeds(p: Parser, chunks: seq<Bytes>): (o: Out)
    requires ParserOk(p)
    decreases |chunks|
  {
    if chunks == [] then Out(p, [], []) else Then(Feed(p, chunks[0]), Feeds(Feed(p, chunks[0]).p, chunks[1..]))
  }

  lemma {:induction false} FeedsJoin(p: Parser, chunks: seq<Bytes>)
    requires ParserOk(p)
    ensures Feeds(p, chunks) == Feed(p, Flatten(chunks))
    decreases |chunks|
  {
    if chunks != [] {
      hide Byte;
      FeedsJoin(Feed(p, chunks[0]).p, chunks[1..]);
      FeedJoins(p, chunks[0], Flatten(chunks[1..]));
    }
  }

  /** The round trip: however a body is cut into feeds, the audio comes out as it went in, and the titles
      shown are those of the blocks, less the empty ones and consecutive repeats. */
  lemma BodyReadsBack(metaint: nat, audio: Bytes, metas: seq<Bytes>, chunks: seq<Bytes>)
    requires metaint > 0 && |metas| == Blocks(metaint, |audio|) && BlocksOk(metas)
    requires Flatten(chunks) == Body(metaint, audio, metas)
    ensures Feeds(Start(metaint), chunks).audio == audio
    ensures Feeds(Start(metaint), chunks).titles == Shown([], metas)
  {
    FeedsJoin(Start(metaint), chunks);
    BodyFed(Start(metaint), audio, metas);
  }

  // ---- the loops of icy_extract_title ------------------------------------------------------------------------

  // find_bytes
  method FindBytes(hay: Bytes, needle: Bytes, from: nat) returns (r: Option<nat>)
    requires from <= |hay| && needle != []
    ensures r == Find(hay, needle, from)
  {
    var i := from;
    while i + |needle| <= |hay|
      invariant from <= i <= |hay| && Find(hay, needle, from) == Find(hay, needle, i)
    {
      if hay[i..i + |needle|] == needle { return Some(i); }
      i := i + 1;
    }
    NotFound(hay, needle, i);
    r := None;
  }

  lemma {:induction false} NotFound(hay: Bytes, needle: Bytes, i: nat)
    requires i <= |hay| < i + |needle|
    ensures Find(hay, needle, i) == None
    decreases |hay| - i
  {
    if i < |hay| { NotFound(hay, needle, i + 1); }
  }

  lemma TextEnds(meta: Bytes, n: nat)
    requires n <= |meta| && (forall k | 0 <= k < n :: meta[k] != 0) && (n == |meta| || meta[n] == 0)
    ensures Text(meta) == meta[..n]
  {
    var r := Text(meta);
    assert r == meta[..|r|];
  }

  // memchr for the first NUL
  method FindNul(meta: Bytes) returns (n: nat)
    ensures n <= |meta| && meta[..n] == Text(meta)
  {
    n := 0;
    while n < |meta| && meta[n] != 0
      invariant n <= |meta| && forall k | 0 <= k < n :: meta[k] != 0
    {
      n := n + 1;
    }
    hide Text;
    TextEnds(meta, n);
  }

  // Backing up a cut to the start of a character.
  method FitTitle(value: Bytes) returns (len: nat)
    ensures len <= |value| && value[..len] == Fitting(value)
  {
    len := |value|;
    if len > TITLE_SIZE - 1 {
      len := TITLE_SIZE - 1;
      while len > 0 && Continuation(value[len])
        invariant len < |value| && CutAt(value, TITLE_SIZE - 1) == CutAt(value, len)
      {
        len := len - 1;
      }
    }
  }

  // icy_extract_title
  method ExtractTitle(meta: Bytes) returns (title: Option<Bytes>)
    ensures title == Title(meta)
  {
    hide Text, Find, Fitting;
    var n := FindNul(meta);
    var text := meta[..n];
    var start := FindBytes(text, KEY, 0);
    if start.None? { return None; }
    var from := start.value + |KEY|;
    var end := FindBytes(text, END, from);
    if end.None? { return None; }
    var len := FitTitle(text[from..end.value]);
    title := Some(text[from..end.value][..len]);
  }

  // ---- the parser itself ----------------------------------------------------------------------------------

  datatype State = IcyAudio | IcyLen | IcyMeta

  class IcyParser {
    var metaint: nat
    var audioLeft: nat
    var metaLeft: nat
    var metaLen: nat
    var state: State
    const meta: array<byte>
    var lastTitle: Bytes

    // The counter of a block never runs past the buffer.
    ghost predicate Valid()
      reads this
    {
      && meta.Length == META_MAX + 1
      && (state.IcyAudio? ==> metaint > 0 ==> 0 < audioLeft <= metaint)
      && (state.IcyLen? ==> metaint > 0)
      && (state.IcyMeta? ==> metaint > 0 && metaLeft > 0 && metaLen + metaLeft <= META_MAX)
    }

    ghost function View(): (p: Parser)
      requires Valid()
      reads this, meta
      ensures ParserOk(p)
    {
      Parser(metaint,
             match state
             case IcyAudio => Audio(if metaint == 0 then 0 else audioLeft)
             case IcyLen => Len
             case IcyMeta => Meta(metaLeft, meta[..metaLen]),
             lastTitle)
    }

    // icy_init
    constructor (interval: nat)
      ensures Valid() && fresh(meta) && View() == Start(interval)
    {
      metaint, audioLeft, metaLeft, metaLen, state, lastTitle := interval, interval, 0, 0, IcyAudio, [];
      meta := new byte[META_MAX + 1];
    }

    // icy_finish_block: the title to show, if any.
    method FinishBlock() returns (shown: seq<Bytes>)
      requires meta.Length == META_MAX + 1 && metaLen <= META_MAX
      modifies `lastTitle
      ensures lastTitle == NextTitle(meta[..metaLen], old(lastTitle)).0
      ensures shown == NextTitle(meta[..metaLen], old(lastTitle)).1
    {
      hide Title;
      var title := ExtractTitle(meta[..metaLen]);
      if title.None? || title.value == [] || title.value == lastTitle { return []; }
      lastTitle := title.value;
      shown := [lastTitle];
    }

    // memcpy of data[from..from + n] into the block
    method Collect(data: Bytes, from: nat, n: nat)
      requires metaLen + n <= meta.Length && from + n <= |data|
      modifies `metaLen, meta
      ensures metaLen == old(metaLen) + n && meta[..metaLen] == old(meta[..metaLen]) + data[from..from + n]
    {
      for j := 0 to n
        modifies meta
        invariant meta[..metaLen + j] == old(meta[..metaLen]) + data[from..from + j]
      {
        meta[metaLen + j] := data[from + j];
      }
      metaLen := metaLen + n;
    }

    // A stretch of audio: the bytes for the callback, and how far they reach.
    method AudioTurn(data: Bytes, from: nat, stop: bool) returns (i: nat, chunk: Bytes)
      requires Valid() && metaint > 0 && state.IcyAudio? && from < |data|
      modifies `audioLeft, `state
      ensures Valid() && from < i <= |data| && chunk == data[from..i]
      ensures stop ==> View() == old(View())
      ensures Feed(old(View()), chunk).audio == chunk && Feed(old(View()), chunk).titles == []
      ensures !stop ==> View() == Feed(old(View()), chunk).p
    {
      hide Feed;
      var n := if audioLeft < |data| - from then audioLeft else |data| - from;
      i := from + n;
      chunk := data[from..i];
      AudioStretch(View(), chunk);
      if stop { return; }
      audioLeft := audioLeft - n;
      if audioLeft == 0 { state := IcyLen; }
    }

    method LenTurn(b: byte)
      requires Valid() && metaint > 0 && state.IcyLen?
      modifies `audioLeft, `metaLeft, `metaLen, `state
      ensures Valid() && Byte(old(View()), b) == Out(View(), [], [])
    {
      metaLeft, metaLen := b as int * 16, 0;
      if metaLeft == 0 {
        audioLeft, state := metaint, IcyAudio;
      } else {
        state := IcyMeta;
      }
      assert meta[..0] == [];
    }

    method MetaTurn(data: Bytes, from: nat) returns (i: nat, shown: seq<Bytes>)
      requires Valid() && metaint > 0 && state.IcyMeta? && from < |data|
      modifies `audioLeft, `metaLeft, `metaLen, `state, `lastTitle, meta
      ensures Valid() && from < i <= |data|
      ensures Feed(old(View()), data[from..i]) == Out(View(), [], shown)
    {
      hide Feed, Title, NextTitle;
      shown := [];
      var n := if metaLeft < |data| - from then metaLeft else |data| - from;
      i := from + n;
      MetaStretch(View(), data[from..i]);
      Collect(data, from, n);
      metaLeft := metaLeft - n;
      if metaLeft == 0 {
        shown := FinishBlock();
        audioLeft, state := metaint, IcyAudio;
      }
    }

    // One turn of icy_feed's loop: the audio bytes or the title it hands out; stop is what the audio
    // callback would answer.
    method Turn(data: Bytes, from: nat, stop: bool) returns (i: nat, chunk: Bytes, shown: seq<Bytes>, stopped: bool)
      requires Valid() && metaint > 0 && from < |data|
      modifies this, meta
      ensures Valid() && metaint == old(metaint) && from < i <= |data|
      ensures stopped <==> stop && chunk != []
      ensures stopped ==> View() == old(View()) && chunk == data[from..i] && shown == []
      ensures var o := Feed(old(View()), data[from..i]);
        o.audio == chunk && o.titles == shown && (!stopped ==> View() == o.p)
    {
      hide Feed, Byte, View;
      chunk, shown, stopped := [], [], false;
      if state.IcyAudio? {
        i, chunk := AudioTurn(data, from, stop);
        stopped := stop;
      } else if state.IcyLen? {
        i := from + 1;
        assert data[from..i] == [data[from]];
        FeedOne(View(), data[from]);
        LenTurn(data[from]);
      } else {
        i, shown := MetaTurn(data, from);
      }
    }

    // A feed of a body without metadata.
    method PassOn(data: Bytes, stop: bool) returns (code: int, audio: seq<Bytes>)
      requires Valid() && metaint == 0
      ensures audio == [data] && code == if stop then -1 else 0
      ensures Feed(View(), data) == Out(View(), Flatten(audio), [])
      ensures data != [] ==> Refused(View(), data, audio, [], View())
    {
      code, audio := if stop then -1 else 0, [data];
      AllAudio(View(), data);
      AllAudio(View(), []);
      Flat([], data);
      hide Feed;
      if data != [] { RefusedHere(View(), data, [], data, 0, |data|, [], View()); }
    }

    /** icy_feed. answers says of each audio callback of the feed whether it asks to stop. Unless one does,
        the callbacks get exactly what the body holds. The first that does ends the feed: before its stretch
        they have got what the body holds up to there, and there the parser stands. */
    method FeedAll(data: Bytes, answers: seq<bool>) returns (code: int, audio: seq<Bytes>, titles: seq<Bytes>)
      requires Valid()
      modifies this, meta
      ensures Valid() && (code == 0 || code == -1)
      ensures var o := Feed(old(View()), data);
        if code == 0 then View() == o.p && Flatten(audio) == o.audio && titles == o.titles
        else Refused(old(View()), data, audio, titles, View())
      ensures forall k | 0 <= k < |audio| && k < |answers| && answers[k] :: code == -1 && k == |audio| - 1
      ensures code == -1 ==> 0 < |audio| <= |answers| && answers[|audio| - 1]
    {
      hide *;
      audio, titles := [], [];
      var i := 0;
      ghost var p := View();
      Begins(p, data, answers);
      if data == [] { return 0, audio, titles; }
      if metaint == 0 {
        code, audio := PassOn(data, Asks(answers, 0));
        Answered(answers, |audio|, code);
        return;
      }
      while i < |data|
        invariant Valid() && metaint > 0 && 0 <= i <= |data|
        invariant Feed(p, data[..i]) == Out(View(), Flatten(audio), titles)
        invariant NoneAsks(answers, |audio|)
      {
        ghost var at, q, before, told := i, View(), audio, titles;
        var chunk, shown, stopped;
        var asks := Asks(answers, |audio|);
        i, chunk, shown, stopped := Turn(data, i, asks);
        Extends(p, data, at, i);
        OneMoreAnswer(answers, |audio|);
        titles := titles + shown;
        if chunk != [] {
          Flat(audio, chunk);
          audio := audio + [chunk];
        } else {
          Nothing(Flatten(audio));
        }
        if stopped {
          RefusedHere(p, data, before, chunk, at, i, told, q);
          assert told + [] == told;
          Answered(answers, |audio|, -1);
          return -1, audio, titles;
        }
      }
      assert data[..i] == data;
      Answered(answers, |audio|, 0);
      code := 0;
    }
  }

  // The k-th callback of a feed asks to stop.
  predicate Asks(answers: seq<bool>, k: nat) {
    k < |answers| && answers[k]
  }

  predicate NoneAsks(answers: seq<bool>, n: nat) {
    forall k: nat | k < n :: !Asks(answers, k)
  }

  // The same in the answers themselves: the last callback asked, if the feed was stopped, and no other.
  lemma Answered(answers: seq<bool>, calls: nat, code: int)
    requires if code == 0 then NoneAsks(answers, calls) else calls > 0 && NoneAsks(answers, calls - 1) && Asks(answers, calls - 1)
    ensures forall k | 0 <= k < calls && k < |answers| && answers[k] :: code != 0 && k == calls - 1
    ensures code != 0 ==> 0 < calls <= |answers| && answers[calls - 1]
  {
    assert forall k: nat | k < calls && k < |answers| && answers[k] :: Asks(answers, k);
  }

  // Before anything is read.
  lemma Begins(p: Parser, data: Bytes, answers: seq<bool>)
    requires ParserOk(p)
    ensures Feed(p, data[..0]) == Out(p, Flatten([]), []) && (data == [] ==> Feed(p, data) == Out(p, Flatten([]), []))
    ensures NoneAsks(answers, 0) && (NoneAsks(answers, 1) <==> !Asks(answers, 0))
  {
    NothingMore(p);
    OneMoreAnswer(answers, 0);
    assert data[..0] == [];
  }

  lemma OneMoreAnswer(answers: seq<bool>, n: nat)
    ensures NoneAsks(answers, n + 1) <==> NoneAsks(answers, n) && !Asks(answers, n)
    ensures NoneAsks(answers, 0)
  {}

  // The last stretch was refused: up to it the callbacks have got what the body holds, and q is the parser
  // after that much.
  ghost predicate Refused(p: Parser, data: Bytes, audio: seq<Bytes>, titles: seq<Bytes>, q: Parser)
    requires ParserOk(p)
  {
    audio != [] && exists at: nat, i: nat :: RefusedAt(p, data, audio, at, i, titles, q)
  }

  predicate RefusedAt(p: Parser, data: Bytes, audio: seq<Bytes>, at: nat, i: nat, titles: seq<Bytes>, q: Parser)
    requires ParserOk(p) && audio != []
  {
    && at < i <= |data| && audio[|audio| - 1] == data[at..i]
    && Feed(p, data[..at]) == Out(q, Flatten(audio[..|audio| - 1]), titles)
  }

  lemma RefusedHere(p: Parser, data: Bytes, before: seq<Bytes>, chunk: Bytes, at: nat, i: nat, titles: seq<Bytes>, q: Parser)
    requires ParserOk(p) && at < i <= |data| && chunk == data[at..i]
    requires Feed(p, data[..at]) == Out(q, Flatten(before), titles)
    ensures Refused(p, data, before + [chunk], titles, q)
  {
    var audio := before + [chunk];
    assert audio[..|audio| - 1] == before;
    hide Feed;
    assert RefusedAt(p, data, audio, at, i, titles, q);
  }

  lemma Nothing(a: Bytes)
    ensures a + [] == a
  {}

  // A feed of the first i bytes, from one of fewer.
  lemma Extends(p: Parser, data: Bytes, at: nat, i: nat)
    requires ParserOk(p) && at <= i <= |data|
    ensures var o, q := Feed(p, data[..at]), Feed(Feed(p, data[..at]).p, data[at..i]);
      Feed(p, data[..i]) == Out(q.p, o.audio + q.audio, o.titles + q.titles)
  {
    assert data[..i] == data[..at] + data[at..i];
    FeedJoins(p, data[..at], data[at..i]);
    hide Feed;
  }

  lemma FeedOne(p: Parser, b: byte)
    requires ParserOk(p)
    ensures Feed(p, [b]) == Byte(p, b)
  {
    ByteOk(p, b);
    assert [b][1..] == [] && Feed(Byte(p, b).p, []) == Out(Byte(p, b).p, [], []);
  }

  lemma NothingMore(p: Parser)
    requires ParserOk(p)
    ensures Feed(p, []) == Out(p, [], [])
  {}

  lemma {:induction false} Flat(chunks: seq<Bytes>, chunk: Bytes)
    ensures Flatten(chunks + [chunk]) == Flatten(chunks) + chunk
  {
    if chunks == [] {
      assert [chunk][1..] == [] && chunk + [] == chunk;
    } else {
      assert (chunks + [chunk])[1..] == chunks[1..] + [chunk];
      Flat(chunks[1..], chunk);
    }
  }

  // Without metadata everything is audio.
  lemma {:induction false} AllAudio(p: Parser, data: Bytes)
    requires p.metaint == 0 && ParserOk(p)
    ensures Feed(p, data) == Out(p, data, [])
  {
    if data != [] {
      AllAudio(p, data[1..]);
      assert [data[0]] + data[1..] == data;
    }
  }
}
