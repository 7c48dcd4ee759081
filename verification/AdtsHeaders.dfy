/** src/adts_scan.c from the sender's side: headers of ADTS frames (ISO/IEC 14496-3, section 1.A.2.2) and of
    ID3v2 tags (ID3v2.4.0 structure, section 3.1) built field by field, which of them the scanner takes, and
    what it makes of streams of frames and tags built so. */
module AdtsHeaders {
  import opened Prelude
  import opened AdtsStream

  // ---- ADTS headers ---------------------------------------------------------------------------------------

  // The fields in the order of their bits; rest stands for the four flags from original_copy on.
  datatype Header = Header(sync: nat, id: nat, layer: nat, protectionAbsent: nat, profile: nat, index: nat,
                           private: nat, channels: nat, rest: nat, length: nat, fullness: nat, blocks: nat)

  // Every field fits its bits.
  predicate Fields(h: Header) {
    && h.sync < 4096 && h.id < 2 && h.layer < 4 && h.protectionAbsent < 2 && h.profile < 4 && h.index < 16
    && h.private < 2 && h.channels < 8 && h.rest < 16 && h.length < 8192 && h.fullness < 2048 && h.blocks < 4
  }

  function HeaderBytes(h: Header): (r: Bytes)
    requires Fields(h)
    ensures |r| == 7
  {
    [(h.sync / 16) as byte,
     (h.sync % 16 * 16 + h.id * 8 + h.layer * 2 + h.protectionAbsent) as byte,
     (h.profile * 64 + h.index * 4 + h.private * 2 + h.channels / 4) as byte,
     (h.channels % 4 * 64 + h.rest * 4 + h.length / 2048) as byte,
     (h.length / 8 % 256) as byte,
     (h.length % 8 * 32 + h.fullness / 64) as byte,
     (h.fullness % 64 * 4 + h.blocks) as byte]
  }

  // What a header has to say: the syncword, layer 0, a frequency that is defined, one to seven channels, and
  // a length beyond the header itself, which is two bytes longer with a CRC.
  predicate Sound(h: Header) {
    && h.sync == 0xFFF && h.layer == 0 && h.index <= 12 && h.channels > 0
    && h.length > (if h.protectionAbsent == 1 then 7 else 9)
  }

  /** A header built from any fields gives its length if it is sound, and otherwise 0. */
  lemma HeaderReads(h: Header, more: Bytes)
    requires Fields(h)
    ensures AdtsLen(HeaderBytes(h) + more) == if Sound(h) then h.length else 0
  {
    var p := HeaderBytes(h) + more;
    SyncRead(h, p[0], p[1]);
    KindRead(h, p[2], p[3]);
    LengthRead(h, p[3], p[4], p[5]);
  }

  lemma SyncRead(h: Header, b0: byte, b1: byte)
    requires Fields(h) && b0 as int == h.sync / 16
    requires b1 as int == h.sync % 16 * 16 + h.id * 8 + h.layer * 2 + h.protectionAbsent
    ensures b0 == 0xFF && b1 as int / 16 == 15 <==> h.sync == 0xFFF
    ensures b1 as int / 2 % 4 == h.layer && b1 as int % 2 == h.protectionAbsent
  {
    assert b1 as int / 16 == h.sync % 16;
    assert b1 as int / 2 == h.sync % 16 * 8 + h.id * 4 + h.layer;
  }

  lemma KindRead(h: Header, b2: byte, b3: byte)
    requires Fields(h) && b2 as int == h.profile * 64 + h.index * 4 + h.private * 2 + h.channels / 4
    requires b3 as int == h.channels % 4 * 64 + h.rest * 4 + h.length / 2048
    ensures b2 as int / 4 % 16 == h.index && b2 as int % 2 * 4 + b3 as int / 64 == h.channels
  {
    assert b2 as int / 4 == h.profile * 16 + h.index;
    assert b2 as int % 2 == h.channels / 4 && b3 as int / 64 == h.channels % 4;
  }

  lemma LengthRead(h: Header, b3: byte, b4: byte, b5: byte)
    requires Fields(h) && b3 as int == h.channels % 4 * 64 + h.rest * 4 + h.length / 2048
    requires b4 as int == h.length / 8 % 256 && b5 as int == h.length % 8 * 32 + h.fullness / 64
    ensures b3 as int % 4 * 2048 + b4 as int * 8 + b5 as int / 32 == h.length
  {
    assert b3 as int % 4 == h.length / 2048 && b5 as int / 32 == h.length % 8;
  }

  // The fields of any seven bytes.
  function HeaderOf(p: Bytes): Header
    requires |p| >= 7
  {
    Header(p[0] as int * 16 + p[1] as int / 16, p[1] as int / 8 % 2, p[1] as int / 2 % 4, p[1] as int % 2,
           p[2] as int / 64, p[2] as int / 4 % 16, p[2] as int / 2 % 2, p[2] as int % 2 * 4 + p[3] as int / 64,
           p[3] as int / 4 % 16, p[3] as int % 4 * 2048 + p[4] as int * 8 + p[5] as int / 32,
           p[5] as int % 32 * 64 + p[6] as int / 4, p[6] as int % 4)
  }

  /** Any seven bytes are a header of some fields, so what is said of built ones is said of all. */
  lemma HeaderOfAny(p: Bytes)
    requires |p| >= 7
    ensures Fields(HeaderOf(p)) && HeaderBytes(HeaderOf(p)) == p[..7]
  {
    SyncBack(p[0], p[1]);
    KindBack(p[2]);
    ChannelsBack(p[2], p[3]);
    RestBack(p[3]);
    LengthBack(p[3], p[4], p[5], p[6]);
    var b := HeaderBytes(HeaderOf(p));
    assert b[0] == p[0] && b[1] == p[1] && b[2] == p[2] && b[3] == p[3] && b[4] == p[4] && b[5] == p[5] && b[6] == p[6];
    hide HeaderOf, HeaderBytes;
    assert b == p[..7];
  }

  lemma SyncBack(b0: byte, b1: byte)
    ensures var n := b0 as int * 16 + b1 as int / 16; n < 4096 && n / 16 == b0 as int && n % 16 == b1 as int / 16
    ensures b1 as int / 16 * 16 + b1 as int / 8 % 2 * 8 + b1 as int / 2 % 4 * 2 + b1 as int % 2 == b1 as int
  {}

  lemma KindBack(b2: byte)
    ensures b2 as int / 64 * 64 + b2 as int / 4 % 16 * 4 + b2 as int / 2 % 2 * 2 + b2 as int % 2 == b2 as int
  {}

  lemma ChannelsBack(b2: byte, b3: byte)
    ensures var n := b2 as int % 2 * 4 + b3 as int / 64; n < 8 && n / 4 == b2 as int % 2 && n % 4 == b3 as int / 64
  {}

  lemma RestBack(b3: byte)
    ensures b3 as int / 64 * 64 + b3 as int / 4 % 16 * 4 + b3 as int % 4 == b3 as int
  {}

  lemma LengthBack(b3: byte, b4: byte, b5: byte, b6: byte)
    ensures var n := b3 as int % 4 * 2048 + b4 as int * 8 + b5 as int / 32;
      n < 8192 && n / 2048 == b3 as int % 4 && n / 8 % 256 == b4 as int && n % 8 == b5 as int / 32
    ensures var n := b5 as int % 32 * 64 + b6 as int / 4; n < 2048 && n / 64 == b5 as int % 32 && n % 64 == b6 as int / 4
    ensures b5 as int / 32 * 32 + b5 as int % 32 == b5 as int && b6 as int / 4 * 4 + b6 as int % 4 == b6 as int
  {}

  // ---- ID3v2 tag headers ------------------------------------------------------------------------------------

  datatype TagHeader = TagHeader(major: byte, revision: byte, flags: byte, size: nat)

  // The size is written in four digits of seven bits.
  predicate TagFields(t: TagHeader) {
    t.size < 0x1000_0000
  }

  function TagBytes(t: TagHeader): (r: Bytes)
    requires TagFields(t)
    ensures |r| == 10
  {
    [0x49, 0x44, 0x33, t.major, t.revision, t.flags,
     (t.size / 0x20_0000) as byte, (t.size / 0x4000 % 128) as byte, (t.size / 128 % 128) as byte, (t.size % 128) as byte]
  }

  // Its header of ten bytes, what it holds, and a footer of ten more if it has one.
  function TagLength(t: TagHeader): nat {
    10 + t.size + if t.flags as int / 16 % 2 == 1 then 10 else 0
  }

  /** A tag header gives the length of the tag, but for versions that do not exist and lengths above 2^20. */
  lemma TagReads(t: TagHeader, more: Bytes)
    requires TagFields(t)
    ensures Id3Len(TagBytes(t) + more) ==
      if t.major == 255 || t.revision == 255 || TagLength(t) > 0x10_0000 then 0 else TagLength(t)
  {
    var p := TagBytes(t) + more;
    assert p[6..10] == [p[6], p[7], p[8], p[9]];
    Digits(t.size);
  }

  lemma Digits(n: nat)
    requires n < 0x1000_0000
    ensures n / 0x20_0000 * 0x20_0000 + n / 0x4000 % 128 * 0x4000 + n / 128 % 128 * 0x80 + n % 128 == n
  {
    assert n / 0x4000 == n / 128 / 128 && n / 0x20_0000 == n / 128 / 128 / 128;
  }

  /** Ten bytes that give a length are a tag header of some fields. */
  lemma TagOfAny(p: Bytes) returns (t: TagHeader)
    requires Id3Len(p) > 0
    ensures TagFields(t) && TagBytes(t) == p[..10]
  {
    var a, b, c, d := p[6] as int, p[7] as int, p[8] as int, p[9] as int;
    var n := a * 0x20_0000 + b * 0x4000 + c * 0x80 + d;
    t := TagHeader(p[3], p[4], p[5], n);
    DigitsOf(a, b, c, d);
    var r := TagBytes(t);
    assert r[0] == p[0] && r[1] == p[1] && r[2] == p[2];
    assert r[6] == p[6] && r[7] == p[7] && r[8] == p[8] && r[9] == p[9];
  }

  lemma DigitsOf(a: nat, b: nat, c: nat, d: nat)
    requires a < 128 && b < 128 && c < 128 && d < 128
    ensures var n := a * 0x20_0000 + b * 0x4000 + c * 0x80 + d;
      n < 0x1000_0000 && n / 0x20_0000 == a && n / 0x4000 % 128 == b && n / 128 % 128 == c && n % 128 == d
  {
    var n := a * 0x20_0000 + b * 0x4000 + c * 0x80 + d;
    assert n / 128 == a * 0x4000 + b * 0x80 + c;
    assert n / 0x4000 == a * 0x80 + b;
  }

  // ---- streams built so ---------------------------------------------------------------------------------------

  datatype Built = BuiltFrame(h: Header, payload: Bytes) | BuiltTag(t: TagHeader, body: Bytes)

  predicate BuiltOk(b: Built) {
    match b
    case BuiltFrame(h, payload) => Fields(h) && Sound(h) && h.length == 7 + |payload|
    case BuiltTag(t, body) =>
      TagFields(t) && t.major != 255 && t.revision != 255 && TagLength(t) == 10 + |body| <= 0x10_0000
  }

  function ItemOf(b: Built): Item
    requires BuiltOk(b)
  {
    match b
    case BuiltFrame(h, payload) => AFrame(HeaderBytes(h) + payload)
    case BuiltTag(t, body) => ATag(TagBytes(t) + body)
  }

  function ItemsOf(bs: seq<Built>): (items: seq<Item>)
    requires forall b | b in bs :: BuiltOk(b)
    ensures |items| == |bs| && forall k | 0 <= k < |bs| :: items[k] == ItemOf(bs[k])
  {
    seq(|bs|, k requires 0 <= k < |bs| => ItemOf(bs[k]))
  }

  lemma BuiltIsItem(b: Built)
    requires BuiltOk(b)
    ensures ItemOk(ItemOf(b))
  {
    hide AdtsLen, Id3Len, HeaderBytes, TagBytes;
    match b
    case BuiltFrame(h, payload) => HeaderReads(h, payload);
    case BuiltTag(t, body) => TagReads(t, body);
  }

  /** What counts as a valid frame or tag is exactly what can be built. */
  lemma ItemIsBuilt(it: Item) returns (b: Built)
    requires ItemOk(it)
    ensures BuiltOk(b) && ItemOf(b) == it
  {
    var p := it.bytes;
    if it.AFrame? {
      b := BuiltFrame(HeaderOf(p), p[7..]);
      HeaderOfAny(p);
      assert p == p[..7] + p[7..];
      HeaderReads(HeaderOf(p), p[7..]);
    } else {
      var t := TagOfAny(p);
      b := BuiltTag(t, p[10..]);
      assert p == p[..10] + p[10..];
      TagReads(t, p[10..]);
    }
    hide AdtsLen, Id3Len, HeaderBytes, TagBytes, HeaderOf;
  }

  lemma AllItems(bs: seq<Built>)
    requires forall b | b in bs :: BuiltOk(b)
    ensures forall it | it in ItemsOf(bs) :: ItemOk(it)
    ensures forall k | 0 <= k < |bs| :: ItemsOf(bs)[k].AFrame? == bs[k].BuiltFrame?
  {
    hide BuiltOk, ItemOk;
    forall k | 0 <= k < |bs|
      ensures ItemOk(ItemsOf(bs)[k])
    {
      BuiltIsItem(bs[k]);
    }
  }

  /** A stream of frames and tags so built, however much of it has come and however it was cut: the frames come
      out in order and nothing is skipped; every frame that ends at least ten bytes before the end of what has
      come is out, and with the sync held, every one that has come whole. */
  lemma BuiltStream(input: Bytes, locked: bool, pieces: seq<Piece>, h: Held, bs: seq<Built>)
    requires Explains(input, locked, pieces, h) && Settled(h) && (forall b | b in bs :: BuiltOk(b))
    requires input <= ItemsBytes(ItemsOf(bs))
    ensures |pieces| <= |bs| && Frames(pieces) == ItemFrames(ItemsOf(bs)[..|pieces|]) && Junks(pieces) == 0
    ensures forall k | |pieces| <= k < |bs| && bs[k].BuiltFrame? :: |ItemsBytes(ItemsOf(bs)[..k + 1])| > |input| - 10
    ensures h.locked && |pieces| < |bs| ==> |ItemsBytes(ItemsOf(bs)[..|pieces| + 1])| > |input|
  {
    hide *;
    var items := ItemsOf(bs);
    AllItems(bs);
    CleanStream(input, locked, pieces, h, items);
    if h.locked && |pieces| < |bs| { NothingStranded(input, locked, pieces, h, items); }
  }
}
