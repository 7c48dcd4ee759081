/** src/m3u8.c, end to end: the text of a master playlist, and the variants m3u8_parse finds in it. */
module M3u8Master {
  import opened Prelude
  import opened M3u8
  import opened M3u8Text
  import opened M3u8ReadBack
  import opened M3u8Live
  import UrlUtil

  // A variant as a playlist lists it.
  datatype Variant = Variant(attributes: string, uri: string)

  predicate VariantOk(base: string, v: Variant) {
    ItemOk(UriItem(v.uri)) && UrlUtil.Fitting(base, v.uri, 2048).Some?
  }

  function AbsoluteUri(base: string, v: Variant): string
    requires VariantOk(base, v)
  {
    UrlUtil.Fitting(base, v.uri, 2048).value
  }

  function MasterItems(vs: seq<Variant>): seq<Item> {
    if vs == [] then [HeaderItem]
    else MasterItems(vs[..|vs| - 1]) + [StreamItem(vs[|vs| - 1].attributes), UriItem(vs[|vs| - 1].uri)]
  }

  function Absolute(base: string, vs: seq<Variant>): seq<string>
    requires forall k | 0 <= k < |vs| :: VariantOk(base, vs[k])
  {
    if vs == [] then [] else Absolute(base, vs[..|vs| - 1]) + [AbsoluteUri(base, vs[|vs| - 1])]
  }

  // What the first i lines have brought: these variants, and nothing else.
  predicate Brings(lines: seq<Line>, i: nat, uris: seq<string>) {
    && i <= |lines| && !StreamPending(lines, i) && Variants(lines, i) == uris && Segments(lines, i) == []
    && MediaNumber(lines, i) == 0 && TargetOf(lines, i) == 0.0
  }

  lemma PairBrings(lines: seq<Line>, i: nat, uris: seq<string>, uri: string)
    requires i + 2 <= |lines| && Brings(lines, i, uris) && lines[i].StreamInf? && lines[i + 1] == Uri(Some(uri))
    ensures Brings(lines, i + 2, uris + [uri])
  {
    assert uris + [] == uris;
    assert StreamPending(lines, i + 1) && Variants(lines, i + 1) == uris && Segments(lines, i + 1) == [];
  }

  // The lines of the variants so far.
  lemma {:induction false} VariantsRead(base: string, num: string -> real, vs: seq<Variant>, lines: seq<Line>)
    requires forall k | 0 <= k < |vs| :: VariantOk(base, vs[k])
    requires |lines| >= |MasterItems(vs)|
    requires forall k | 0 <= k < |MasterItems(vs)| :: lines[k] == ItemLine(base, num, MasterItems(vs)[k])
    ensures |MasterItems(vs)| == 1 + 2 * |vs| && lines[0] == Header
    ensures Brings(lines, 1 + 2 * |vs|, Absolute(base, vs))
    ensures forall k | 1 <= k < 1 + 2 * |vs| :: if k % 2 == 1 then lines[k].StreamInf? else lines[k].Uri?
  {
    hide Brings, ItemLine, VariantOk, AbsoluteUri;
    if vs == [] {
      HeaderIs(base, num);
      assert lines[0] == ItemLine(base, num, MasterItems(vs)[0]);
      FirstBrings(lines);
    } else {
      var init, v := vs[..|vs| - 1], vs[|vs| - 1];
      var items, before := MasterItems(vs), MasterItems(init);
      assert forall k | 0 <= k < |before| :: before[k] == items[k];
      VariantsRead(base, num, init, lines);
      var n := |before|;
      assert items[n] == StreamItem(v.attributes) && items[n + 1] == UriItem(v.uri);
      PairIs(base, num, v);
      PairBrings(lines, n, Absolute(base, init), AbsoluteUri(base, v));
    }
  }

  lemma FirstBrings(lines: seq<Line>)
    requires lines != [] && lines[0] == Header
    ensures Brings(lines, 1, [])
  {
    assert !StreamPending(lines, 0) && Variants(lines, 0) == [] && Segments(lines, 0) == [] && MediaNumber(lines, 0) == 0;
  }

  lemma HeaderIs(base: string, num: string -> real)
    ensures ItemLine(base, num, HeaderItem) == Header
  {}

  lemma PairIs(base: string, num: string -> real, v: Variant)
    requires VariantOk(base, v)
    ensures ItemLine(base, num, StreamItem(v.attributes)) == StreamInf
    ensures ItemLine(base, num, UriItem(v.uri)) == Uri(Some(AbsoluteUri(base, v)))
  {
    hide UrlUtil.Fitting;
  }

  lemma {:induction false} MasterItemsOk(base: string, vs: seq<Variant>)
    requires forall k | 0 <= k < |vs| :: VariantOk(base, vs[k])
    ensures forall k | 0 <= k < |MasterItems(vs)| :: ItemOk(MasterItems(vs)[k])
  {
    hide UrlUtil.Fitting;
    if vs != [] { MasterItemsOk(base, vs[..|vs| - 1]); }
  }

  lemma MasterKind(lines: seq<Line>)
    requires |lines| >= 3 && lines[0] == Header
    requires forall k | 1 <= k < |lines| :: if k % 2 == 1 then lines[k].StreamInf? else lines[k].Uri?
    ensures IsPlaylist(lines) && KindOf(lines, |lines|) == MasterPlaylist && !Ended(lines, |lines|)
  {
    assert lines[1].StreamInf?;
  }

  /** The text of a master playlist, however its lines are spaced and ended, parses to a master playlist with
      exactly the URIs of its variants, made absolute and in order, and with no segment. */
  lemma MasterReadsBack(base: string, num: string -> real, vs: seq<Variant>, rows: seq<Row>, text: string, bom: bool)
    requires vs != [] && forall k | 0 <= k < |vs| :: VariantOk(base, vs[k])
    requires Texts(rows) == ItemTexts(MasterItems(vs)) && forall k | 0 <= k < |rows| :: RowOk(rows[k])
    requires text == Print(rows) || text + "\n" == Print(rows)
    requires !bom ==> !Starts(text, "\U{00ef}\U{00bb}\U{00bf}")
    ensures var lines := Lines(base, num, (if bom then "\U{00ef}\U{00bb}\U{00bf}" else "") + text);
      && IsPlaylist(lines)
      && MediaOf(lines) == Media(MasterPlaylist, [], Absolute(base, vs), 0, 0.0, false)
  {
    hide Texts, ItemTexts, Print, Starts, Lines, ItemOk, Bodies, KindOf, Ended, IsPlaylist, VariantOk;
    TextReadsBack(base, num, rows, text, bom);
    MasterItemsOk(base, vs);
    ItemsRead(base, num, rows, MasterItems(vs));
    var lines := M3u8Live.LinesOf(base, num, MasterItems(vs));
    LinesAt(base, num, MasterItems(vs));
    hide M3u8Live.LinesOf, MasterItems;
    VariantsRead(base, num, vs, lines);
    MasterKind(lines);
  }
}
