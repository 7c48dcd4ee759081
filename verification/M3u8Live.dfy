/** src/m3u8.c, end to end: the text of a media playlist, live or over, with its numbers, discontinuities
    and keys, and the segments m3u8_parse makes of it. */
module M3u8Live {
  import opened Prelude
  import opened M3u8
  import opened M3u8Text
  import opened M3u8ReadBack
  import M3u8Attrs
  import M3u8Keys
  import HlsCrypt
  import UrlUtil

  // A segment as a playlist lists it, with the key tag that begins with it, if one does.
  datatype Entry = Entry(inf: string, uri: string, disc: bool, key: Option<seq<M3u8Attrs.Written>>)

  predicate EntryOk(base: string, e: Entry) {
    && ItemOk(UriItem(e.uri)) && UrlUtil.Fitting(base, e.uri, MAX_URL).Some?
    && (e.key.Some? ==> ItemOk(KeyItem(e.key.value)))
  }

  function EntryItems(e: Entry): seq<Item> {
    (if e.key.Some? then [KeyItem(e.key.value)] else []) + (if e.disc then [DiscItem] else []) + [InfItem(e.inf), UriItem(e.uri)]
  }

  function ListItems(es: seq<Entry>): seq<Item> {
    if es == [] then [] else ListItems(es[..|es| - 1]) + EntryItems(es[|es| - 1])
  }

  function Items(target: string, n: nat, es: seq<Entry>): seq<Item> {
    [HeaderItem, TargetItem(target), NumberItem(n)] + ListItems(es)
  }

  function LinesOf(base: string, num: string -> real, items: seq<Item>): seq<Line> {
    if items == [] then [] else LinesOf(base, num, items[..|items| - 1]) + [ItemLine(base, num, items[|items| - 1])]
  }

  // ---- what is expected -----------------------------------------------------------------------------------

  // The key of an entry: the last one given so far.
  function KeyAt(base: string, num: string -> real, es: seq<Entry>): (l: Line)
    ensures l.Key?
  {
    if es == [] then Key(NoEncryption, None, None)
    else
      var last := es[|es| - 1];
      if last.key.Some? then ItemLine(base, num, KeyItem(last.key.value)) else KeyAt(base, num, es[..|es| - 1])
  }

  // The segment of the last of some entries, the first being numbered n.
  function SegmentOf(base: string, num: string -> real, n: nat, es: seq<Entry>): Segment
    requires es != [] && EntryOk(base, es[|es| - 1])
  {
    var e, key, number := es[|es| - 1], KeyAt(base, num, es), Saturated(n + |es| - 1);
    Segment(UrlUtil.Fitting(base, e.uri, MAX_URL).value, num(e.inf), number, e.disc, !key.how.NoEncryption?,
            if key.how.Aes128? then key.uri else None,
            if key.how.Aes128? && key.iv.Some? then key.iv.value else HlsCrypt.SequenceIv(number))
  }

  function Expected(base: string, num: string -> real, n: nat, es: seq<Entry>): seq<Segment>
    requires forall k | 0 <= k < |es| :: EntryOk(base, es[k])
  {
    if es == [] then [] else Expected(base, num, n, es[..|es| - 1]) + [SegmentOf(base, num, n, es)]
  }

  // ---- line by line -----------------------------------------------------------------------------------------

  // All that the lines before one say about it.
  datatype Before = Before(stream: bool, inf: Option<real>, disc: bool, count: nat, media: int, key: Line, segs: seq<Segment>)

  function At(lines: seq<Line>, i: nat): Before
    requires i <= |lines|
  {
    Before(StreamPending(lines, i), InfPending(lines, i), DiscPending(lines, i), Count(lines, i), MediaNumber(lines, i),
           KeyInForce(lines, i), Segments(lines, i))
  }

  // One more of the lines a media playlist consists of.
  function Next(b: Before, l: Line): Before {
    match l
    case Key(_, _, _) => b.(key := l)
    case Discontinuity => b.(disc := true)
    case ExtInf(d) => b.(inf := Some(d))
    case MediaSequence(Some(n)) => if b.count == 0 then b.(media := n) else b
    case Uri(Some(u)) =>
      if b.inf.Some? && b.key.Key? then
        var number := Saturated(b.media + b.count);
        b.(inf := None, disc := false, count := b.count + 1,
           segs := b.segs + [Segment(u, b.inf.value, number, b.disc, !b.key.how.NoEncryption?,
                                     if b.key.how.Aes128? then b.key.uri else None,
                                     if b.key.how.Aes128? && b.key.iv.Some? then b.key.iv.value
                                     else HlsCrypt.SequenceIv(number))])
      else b.(inf := None, count := b.count + 1)
    case _ => b
  }

  predicate Ordinary(l: Line) {
    || l.Header? || l.Key? || l.Discontinuity? || l.ExtInf? || l.TargetDuration?
    || (l.MediaSequence? && l.number.Some?) || (l.Uri? && l.absolute.Some?)
  }

  lemma Steps(lines: seq<Line>, i: nat)
    requires i < |lines| && Ordinary(lines[i]) && !StreamPending(lines, i)
    requires lines[i].Uri? ==> InfPending(lines, i).Some?
    ensures At(lines, i + 1) == Next(At(lines, i), lines[i]) && !StreamPending(lines, i + 1)
  {
    assert Segments(lines, i) + [] == Segments(lines, i);
  }

  // ---- entry by entry ---------------------------------------------------------------------------------------

  lemma {:induction false} LinesAt(base: string, num: string -> real, items: seq<Item>)
    ensures var ls := LinesOf(base, num, items);
      |ls| == |items| && forall k | 0 <= k < |ls| :: ls[k] == ItemLine(base, num, items[k])
  {
    if items != [] { LinesAt(base, num, items[..|items| - 1]); }
  }

  // Where the lines of an entry begin and what they are.
  ghost predicate Placed(base: string, num: string -> real, lines: seq<Line>, i: nat, e: Entry) {
    var items := EntryItems(e);
    i + |items| <= |lines| && forall k | 0 <= k < |items| :: lines[i + k] == ItemLine(base, num, items[k])
  }

  lemma EntryRead(base: string, num: string -> real, lines: seq<Line>, i: nat, e: Entry)
    requires i <= |lines| && Placed(base, num, lines, i, e) && EntryOk(base, e)
    requires !StreamPending(lines, i)
    ensures var j := i + |EntryItems(e)|;
      && j <= |lines| && !StreamPending(lines, j)
      && At(lines, j) ==
           Next(Next(if e.disc then Next(Keyed(base, num, At(lines, i), e), Discontinuity) else Keyed(base, num, At(lines, i), e),
                     ExtInf(num(e.inf))), Uri(UrlUtil.Fitting(base, e.uri, MAX_URL)))
  {
    var items, at := EntryItems(e), i;
    hide At, Next, StreamPending, ItemOk, UrlUtil.Fitting;
    assert forall k | 0 <= k < |items| :: lines[i + k] == ItemLine(base, num, items[k]);
    if e.key.Some? {
      assert lines[i + 0] == ItemLine(base, num, items[0]);
      Steps(lines, at);
      at := at + 1;
    }
    if e.disc {
      assert lines[at] == Discontinuity by { assert lines[i + (at - i)] == ItemLine(base, num, items[at - i]); }
      Steps(lines, at);
      at := at + 1;
    }
    assert lines[at] == ExtInf(num(e.inf)) by { assert lines[i + (at - i)] == ItemLine(base, num, items[at - i]); }
    Steps(lines, at);
    InfNext(lines, at);
    at := at + 1;
    assert lines[at] == Uri(UrlUtil.Fitting(base, e.uri, MAX_URL)) by {
      assert lines[i + (at - i)] == ItemLine(base, num, items[at - i]);
    }
    Steps(lines, at);
  }

  lemma InfNext(lines: seq<Line>, i: nat)
    requires i < |lines| && lines[i].ExtInf?
    ensures InfPending(lines, i + 1).Some?
  {}

  // The key tag of an entry, if it has one.
  function Keyed(base: string, num: string -> real, b: Before, e: Entry): Before {
    if e.key.Some? then Next(b, ItemLine(base, num, KeyItem(e.key.value))) else b
  }

  // ---- the whole list -----------------------------------------------------------------------------------------

  // What is known after some entries, the first numbered n.
  function Want(base: string, num: string -> real, n: nat, es: seq<Entry>): Before
    requires forall k | 0 <= k < |es| :: EntryOk(base, es[k])
  {
    Before(false, None, false, |es|, n, KeyAt(base, num, es), Expected(base, num, n, es))
  }

  lemma EntryWanted(base: string, num: string -> real, n: nat, es: seq<Entry>)
    requires es != [] && forall k | 0 <= k < |es| :: EntryOk(base, es[k])
    ensures var e, b := es[|es| - 1], Want(base, num, n, es[..|es| - 1]);
      Next(Next(if e.disc then Next(Keyed(base, num, b, e), Discontinuity) else Keyed(base, num, b, e), ExtInf(num(e.inf))),
           Uri(UrlUtil.Fitting(base, e.uri, MAX_URL))) == Want(base, num, n, es)
  {
    hide *;
    WantSplit(base, num, n, es);
    SegmentIs(base, num, n, es);
    var e, b := es[|es| - 1], Want(base, num, n, es[..|es| - 1]);
    KeyWanted(base, num, b, es);
    EntryEnds(b.(key := KeyAt(base, num, es)), e.disc, num(e.inf), UrlUtil.Fitting(base, e.uri, MAX_URL).value);
  }

  lemma WantSplit(base: string, num: string -> real, n: nat, es: seq<Entry>)
    requires es != [] && forall k | 0 <= k < |es| :: EntryOk(base, es[k])
    ensures var b := Want(base, num, n, es[..|es| - 1]);
      && !b.disc && b.inf.None? && b.key.Key? && b.media == n && b.count == |es| - 1
      && b.key == KeyAt(base, num, es[..|es| - 1]) && EntryOk(base, es[|es| - 1])
      && Want(base, num, n, es) ==
           b.(count := b.count + 1, key := KeyAt(base, num, es), segs := b.segs + [SegmentOf(base, num, n, es)])
  {
    hide UrlUtil.Fitting, ItemOk, KeyAt, SegmentOf;
  }

  lemma SegmentIs(base: string, num: string -> real, n: nat, es: seq<Entry>)
    requires es != [] && EntryOk(base, es[|es| - 1])
    ensures MAX_URL > 0 && UrlUtil.Fitting(base, es[|es| - 1].uri, MAX_URL).Some? && KeyAt(base, num, es).Key?
    ensures var e, key, number := es[|es| - 1], KeyAt(base, num, es), Saturated(n + (|es| - 1));
      SegmentOf(base, num, n, es) ==
        Segment(UrlUtil.Fitting(base, e.uri, MAX_URL).value, num(e.inf), number, e.disc, !key.how.NoEncryption?,
                if key.how.Aes128? then key.uri else None,
                if key.how.Aes128? && key.iv.Some? then key.iv.value else HlsCrypt.SequenceIv(number))
  {
    hide UrlUtil.Fitting, ItemOk, KeyAt, HlsCrypt.SequenceIv, Saturated;
  }

  lemma KeyWanted(base: string, num: string -> real, b: Before, es: seq<Entry>)
    requires es != [] && b.key == KeyAt(base, num, es[..|es| - 1])
    ensures Keyed(base, num, b, es[|es| - 1]) == b.(key := KeyAt(base, num, es))
  {
    hide M3u8Keys.KeyLine, M3u8Keys.KeyTextOf;
  }

  lemma EntryEnds(b: Before, disc: bool, d: real, u: string)
    requires !b.disc && b.inf.None? && b.key.Key?
    ensures var number := Saturated(b.media + b.count);
      Next(Next(if disc then Next(b, Discontinuity) else b, ExtInf(d)), Uri(Some(u))) ==
        b.(count := b.count + 1,
           segs := b.segs + [Segment(u, d, number, disc, !b.key.how.NoEncryption?,
                                     if b.key.how.Aes128? then b.key.uri else None,
                                     if b.key.how.Aes128? && b.key.iv.Some? then b.key.iv.value
                                     else HlsCrypt.SequenceIv(number))])
  {
    hide Saturated, HlsCrypt.SequenceIv;
  }

  lemma HeadRead(base: string, num: string -> real, target: string, n: nat, lines: seq<Line>)
    requires |lines| >= 3 && lines[0] == Header && lines[1].TargetDuration? && lines[2] == MediaSequence(Some(n))
    ensures At(lines, 3) == Want(base, num, n, []) && !StreamPending(lines, 3)
  {
    assert At(lines, 0) == Before(false, None, false, 0, 0, Key(NoEncryption, None, None), []);
    assert !StreamPending(lines, 0);
    hide At, StreamPending;
    Steps(lines, 0);
    Steps(lines, 1);
    Steps(lines, 2);
  }

  lemma {:induction false} ListRead(base: string, num: string -> real, target: string, n: nat, es: seq<Entry>, lines: seq<Line>)
    requires forall k | 0 <= k < |es| :: EntryOk(base, es[k])
    requires LinesOf(base, num, Items(target, n, es)) <= lines
    ensures |Items(target, n, es)| <= |lines|
    ensures At(lines, |Items(target, n, es)|) == Want(base, num, n, es) && !StreamPending(lines, |Items(target, n, es)|)
    decreases |es|
  {
    hide *;
    ItemsSplit(target, n, es);
    Prefix(base, num, Items(target, n, es), |Items(target, n, es)|, lines);
    if es == [] {
      HeadLines(base, num, target, n, lines);
      HeadRead(base, num, target, n, lines);
    } else {
      var init, e := es[..|es| - 1], es[|es| - 1];
      var before := Items(target, n, init);
      Prefix(base, num, Items(target, n, es), |before|, lines);
      assert (before + EntryItems(e))[..|before|] == before;
      ListRead(base, num, target, n, init, lines);
      IsPlaced(base, num, lines, before, e);
      EntryRead(base, num, lines, |before|, e);
      EntryWanted(base, num, n, es);
      assert |before + EntryItems(e)| == |before| + |EntryItems(e)|;
    }
  }

  lemma HeadLines(base: string, num: string -> real, target: string, n: nat, lines: seq<Line>)
    requires LinesOf(base, num, Items(target, n, [])) <= lines
    ensures |lines| >= 3 && lines[0] == Header && lines[1].TargetDuration? && lines[2] == MediaSequence(Some(n))
  {
    LinesAt(base, num, Items(target, n, []));
  }

  lemma ItemsSplit(target: string, n: nat, es: seq<Entry>)
    ensures es != [] ==> Items(target, n, es) == Items(target, n, es[..|es| - 1]) + EntryItems(es[|es| - 1])
    ensures es == [] ==> |Items(target, n, es)| == 3
  {
    hide EntryItems;
  }

  lemma Prefix(base: string, num: string -> real, items: seq<Item>, m: nat, lines: seq<Line>)
    requires LinesOf(base, num, items) <= lines && m <= |items|
    ensures |items| <= |lines| && LinesOf(base, num, items[..m]) <= lines
    ensures forall k | 0 <= k < |items| :: lines[k] == ItemLine(base, num, items[k])
  {
    LinesAt(base, num, items);
    LinesAt(base, num, items[..m]);
    hide LinesOf, ItemLine;
  }

  lemma IsPlaced(base: string, num: string -> real, lines: seq<Line>, before: seq<Item>, e: Entry)
    requires |before + EntryItems(e)| <= |lines|
    requires forall k | 0 <= k < |before + EntryItems(e)| :: lines[k] == ItemLine(base, num, (before + EntryItems(e))[k])
    ensures Placed(base, num, lines, |before|, e)
  {
    var items := EntryItems(e);
    forall k | 0 <= k < |items| ensures lines[|before| + k] == ItemLine(base, num, items[k]) {
      assert (before + items)[|before| + k] == items[k];
    }
    hide EntryItems, ItemLine;
  }

  // ---- from the text ------------------------------------------------------------------------------------------

  // The bodies of the rows that are not blank.
  function Texts(rows: seq<Row>): seq<string> {
    if rows == [] then [] else (if rows[0].body == "" then [] else [rows[0].body]) + Texts(rows[1..])
  }

  function ItemTexts(items: seq<Item>): seq<string> {
    seq(|items|, k requires 0 <= k < |items| => ItemText(items[k]))
  }

  lemma {:induction false} BodiesAre(base: string, num: string -> real, rows: seq<Row>)
    ensures |Bodies(base, num, rows)| == |Texts(rows)|
    ensures forall k | 0 <= k < |Texts(rows)| :: Texts(rows)[k] != "" && Bodies(base, num, rows)[k] == LineOf(base, num, Texts(rows)[k])
  {
    if rows != [] {
      var first := if rows[0].body == "" then [] else [rows[0].body];
      assert Texts(rows) == first + Texts(rows[1..]);
      assert Bodies(base, num, rows) == (if rows[0].body == "" then [] else [LineOf(base, num, rows[0].body)]) + Bodies(base, num, rows[1..]);
      hide LineOf, Bodies, Texts;
      BodiesAre(base, num, rows[1..]);
    }
  }

  lemma ItemsRead(base: string, num: string -> real, rows: seq<Row>, items: seq<Item>)
    requires Texts(rows) == ItemTexts(items) && forall k | 0 <= k < |items| :: ItemOk(items[k])
    ensures Bodies(base, num, rows) == LinesOf(base, num, items)
  {
    BodiesAre(base, num, rows);
    LinesAt(base, num, items);
    hide Bodies, LinesOf, LineOf, ItemOk, ItemText, ItemLine;
    forall k | 0 <= k < |items|
      ensures Bodies(base, num, rows)[k] == LinesOf(base, num, items)[k]
    {
      assert Texts(rows)[k] == ItemTexts(items)[k] == ItemText(items[k]);
      ItemReadsBack(base, num, items[k]);
    }
  }

  lemma {:induction false} ItemsOk(base: string, target: string, n: nat, es: seq<Entry>)
    requires n <= 0x7FFF_FFFF_FFFF_FFFF && forall k | 0 <= k < |es| :: EntryOk(base, es[k])
    ensures forall k | 0 <= k < |Items(target, n, es)| :: ItemOk(Items(target, n, es)[k])
    decreases |es|
  {
    if es == [] {
      assert Items(target, n, es) == [HeaderItem, TargetItem(target), NumberItem(n)];
    } else {
      ItemsSplit(target, n, es);
      EntryItemsOk(base, es[|es| - 1]);
      hide Items, EntryItems, EntryOk, ItemOk;
      ItemsOk(base, target, n, es[..|es| - 1]);
    }
  }

  lemma EntryItemsOk(base: string, e: Entry)
    requires EntryOk(base, e)
    ensures forall k | 0 <= k < |EntryItems(e)| :: ItemOk(EntryItems(e)[k])
  {}

  // Nothing that makes it a master playlist, sets its target or holds a NUL.
  predicate Mere(l: Line) {
    !l.HasNul? && !l.StreamInf? && !l.TargetDuration?
  }

  lemma EntryMere(base: string, num: string -> real, e: Entry)
    ensures forall k | 0 <= k < |EntryItems(e)| ::
      Mere(ItemLine(base, num, EntryItems(e)[k])) && !ItemLine(base, num, EntryItems(e)[k]).EndList?
  {
    hide UrlUtil.Fitting, M3u8Keys.KeyTextOf;
  }

  lemma {:induction false} ItemsMere(base: string, num: string -> real, target: string, n: nat, es: seq<Entry>)
    ensures var items := Items(target, n, es);
      && |items| >= 3 && items[0] == HeaderItem && items[1] == TargetItem(target)
      && forall k | 2 <= k < |items| :: Mere(ItemLine(base, num, items[k])) && !ItemLine(base, num, items[k]).EndList?
    decreases |es|
  {
    if es == [] {
      assert Items(target, n, es) == [HeaderItem, TargetItem(target), NumberItem(n)];
    } else {
      ItemsSplit(target, n, es);
      EntryMere(base, num, es[|es| - 1]);
      hide Items, EntryItems, ItemLine, Mere;
      ItemsMere(base, num, target, n, es[..|es| - 1]);
    }
  }

  // The list, with the tag that ends it or without.
  function AllItems(target: string, n: nat, es: seq<Entry>, ended: bool): seq<Item> {
    Items(target, n, es) + if ended then [EndItem] else []
  }

  lemma NothingElse(base: string, num: string -> real, target: string, n: nat, es: seq<Entry>, ended: bool)
    ensures var lines, size := LinesOf(base, num, AllItems(target, n, es, ended)), |Items(target, n, es)|;
      && 3 <= size && |lines| == size + (if ended then 1 else 0) && lines[0] == Header && lines[1] == TargetDuration(num(target))
      && (forall k | 2 <= k < |lines| :: Mere(lines[k])) && (forall k | 0 <= k < size :: !lines[k].EndList?)
      && (ended ==> lines[size].EndList?) && LinesOf(base, num, Items(target, n, es)) <= lines
  {
    var items, all := Items(target, n, es), AllItems(target, n, es, ended);
    LinesAt(base, num, all);
    LinesAt(base, num, items);
    assert forall k | 0 <= k < |items| :: all[k] == items[k];
    ItemsMere(base, num, target, n, es);
    hide Items, LinesOf;
  }

  lemma {:induction false} TargetStays(lines: seq<Line>, i: nat)
    requires 2 <= i <= |lines| && lines[1].TargetDuration? && forall k | 2 <= k < i :: Mere(lines[k])
    ensures TargetOf(lines, i) == lines[1].target
  {
    if i > 2 { TargetStays(lines, i - 1); }
  }

  /** The text of a playlist - its target duration, the number of its first segment, each segment with its
      duration, URI, discontinuity and key, and whether it is over, however the lines are spaced and ended -
      parses to exactly those segments, numbered in order from the first and short of overflow, each with the
      key last given and the IV given with it or else that of its number, and is over exactly if it says so. */
  lemma PlaylistReadsBack(base: string, num: string -> real, target: string, n: nat, es: seq<Entry>, ended: bool,
                          rows: seq<Row>, text: string, bom: bool)
    requires n <= 0x7FFF_FFFF_FFFF_FFFF && forall k | 0 <= k < |es| :: EntryOk(base, es[k])
    requires Texts(rows) == ItemTexts(AllItems(target, n, es, ended)) && forall k | 0 <= k < |rows| :: RowOk(rows[k])
    requires text == Print(rows) || text + "\n" == Print(rows)
    requires !bom ==> !Starts(text, "\U{00ef}\U{00bb}\U{00bf}")
    ensures var lines := Lines(base, num, (if bom then "\U{00ef}\U{00bb}\U{00bf}" else "") + text);
      && IsPlaylist(lines)
      && MediaOf(lines) == Media(MediaPlaylist, Expected(base, num, n, es), [], n, num(target), ended)
  {
    hide *;
    TextReadsBack(base, num, rows, text, bom);
    ItemsOk(base, target, n, es);
    AllItemsOk(target, n, es, ended);
    ItemsRead(base, num, rows, AllItems(target, n, es, ended));
    ListParses(base, num, target, n, es, ended);
  }

  lemma AllItemsOk(target: string, n: nat, es: seq<Entry>, ended: bool)
    requires forall k | 0 <= k < |Items(target, n, es)| :: ItemOk(Items(target, n, es)[k])
    ensures forall k | 0 <= k < |AllItems(target, n, es, ended)| :: ItemOk(AllItems(target, n, es, ended)[k])
  {
    hide Items;
  }

  // The same from the lines.
  lemma ListParses(base: string, num: string -> real, target: string, n: nat, es: seq<Entry>, ended: bool)
    requires forall k | 0 <= k < |es| :: EntryOk(base, es[k])
    ensures var lines := LinesOf(base, num, AllItems(target, n, es, ended));
      && IsPlaylist(lines)
      && MediaOf(lines) == Media(MediaPlaylist, Expected(base, num, n, es), [], n, num(target), ended)
  {
    var lines, size := LinesOf(base, num, AllItems(target, n, es, ended)), |Items(target, n, es)|;
    NothingElse(base, num, target, n, es, ended);
    ListRead(base, num, target, n, es, lines);
    hide Items, AllItems, LinesOf, Expected, EntryOk, KeyAt;
    MereList(lines, size, ended);
    if ended { EndAdds(lines, size); }
    WantIs(base, num, n, es, lines);
  }

  // The tag that ends the list leaves the segments as they are.
  lemma EndAdds(lines: seq<Line>, i: nat)
    requires i < |lines| && lines[i].EndList?
    ensures At(lines, i + 1).segs == At(lines, i).segs && At(lines, i + 1).media == At(lines, i).media
  {
    assert Segments(lines, i) + [] == Segments(lines, i);
  }

  lemma WantIs(base: string, num: string -> real, n: nat, es: seq<Entry>, lines: seq<Line>)
    requires forall k | 0 <= k < |es| :: EntryOk(base, es[k])
    requires At(lines, |lines|).segs == Want(base, num, n, es).segs && At(lines, |lines|).media == Want(base, num, n, es).media
    ensures Segments(lines, |lines|) == Expected(base, num, n, es) && MediaNumber(lines, |lines|) == n
  {}

  lemma {:induction false} NoVariants(lines: seq<Line>, i: nat)
    requires i <= |lines| && forall k | 0 <= k < i :: !lines[k].StreamInf?
    ensures !StreamPending(lines, i) && Variants(lines, i) == []
  {
    if i > 0 { NoVariants(lines, i - 1); }
  }

  lemma MereList(lines: seq<Line>, size: nat, ended: bool)
    requires |lines| == size + (if ended then 1 else 0) && size >= 3 && lines[0] == Header && lines[1].TargetDuration?
    requires (forall k | 2 <= k < |lines| :: Mere(lines[k])) && (forall k | 0 <= k < size :: !lines[k].EndList?)
    requires ended ==> lines[size].EndList?
    ensures IsPlaylist(lines) && KindOf(lines, |lines|) == MediaPlaylist && Ended(lines, |lines|) == ended
    ensures TargetOf(lines, |lines|) == lines[1].target && Variants(lines, |lines|) == []
  {
    TargetStays(lines, |lines|);
    NoVariants(lines, |lines|);
    assert lines[1].TargetDuration?;
  }
}
