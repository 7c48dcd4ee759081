/** src/m3u8.c: the line loop of the playlist parser. Lines come already told apart; what is proved is
    which lines make a segment, and where its number, key and IV come from. What a key tag says is the
    matter of M3u8Keys. */
module M3u8 {
  import opened Prelude
  import opened AesCipher
  import C = HlsCrypt

  const LLONG_MAX := 0x7FFF_FFFF_FFFF_FFFF

  // METHOD=NONE or none at all; one that can be decrypted; any other, or a URI or IV that came cut short.
  datatype Method = NoEncryption | Aes128 | Unusable

  // A line of a playlist, blank ones left out. A tag's values are those its text gives: the number of
  // EXT-X-MEDIA-SEQUENCE if it is a number in range, the key URI and a URI line if they can be resolved,
  // the IV if it parses.
  datatype Line =
    | Header
    | ExtInf(duration: real)
    | StreamInf
    | TargetDuration(target: real)
    | MediaSequence(number: Option<int>)
    | Discontinuity
    | EndList
    | Key(how: Method, uri: Option<string>, iv: Option<Block>)
    | Other
    | Uri(absolute: Option<string>)
    | HasNul

  datatype Segment = Segment(uri: string, duration: real, seqNo: int, discontinuity: bool,
                             encrypted: bool, keyUri: Option<string>, iv: Block)

  datatype Kind = UnknownKind | MasterPlaylist | MediaPlaylist

  datatype Media = Media(kind: Kind, segments: seq<Segment>, variants: seq<string>, mediaSequence: int,
                         target: real, endlist: bool)

  predicate LineOk(l: Line) {
    l.MediaSequence? && l.number.Some? ==> 0 <= l.number.value <= LLONG_MAX
  }

  // ---- what the lines before one say about it -------------------------------------------------------

  // A variant's tag waits for its URI.
  predicate StreamPending(lines: seq<Line>, i: nat)
    requires i <= |lines|
  {
    i > 0 && (lines[i - 1].StreamInf? || (!lines[i - 1].Uri? && StreamPending(lines, i - 1)))
  }

  // A URI line that takes a number: any but a variant's.
  predicate Numbered(lines: seq<Line>, i: nat)
    requires i < |lines|
  {
    lines[i].Uri? && !StreamPending(lines, i)
  }

  // How many numbers have been taken.
  function Count(lines: seq<Line>, i: nat): nat
    requires i <= |lines|
  {
    if i == 0 then 0 else Count(lines, i - 1) + if Numbered(lines, i - 1) then 1 else 0
  }

  // The media sequence in force: the last valid tag's before the first numbered URI.
  function MediaNumber(lines: seq<Line>, i: nat): int
    requires i <= |lines|
  {
    if i == 0 then 0
    else if lines[i - 1].MediaSequence? && lines[i - 1].number.Some? && Count(lines, i - 1) == 0
    then lines[i - 1].number.value
    else MediaNumber(lines, i - 1)
  }

  // An EXTINF waits for its segment: it stays until a segment takes it, or a URI drops it that cannot be
  // resolved. A variant leaves it.
  function InfPending(lines: seq<Line>, i: nat): Option<real>
    requires i <= |lines|
  {
    if i == 0 then None
    else
      var l, was := lines[i - 1], InfPending(lines, i - 1);
      if l.ExtInf? then Some(l.duration)
      else if l.Uri? && (l.absolute.None? || !StreamPending(lines, i - 1)) then None
      else was
  }

  // So does a discontinuity tag, but only URIs that something waits for clear it.
  predicate DiscPending(lines: seq<Line>, i: nat)
    requires i <= |lines|
  {
    i > 0 &&
    var l, was := lines[i - 1], DiscPending(lines, i - 1);
    if l.Discontinuity? then true
    else if !l.Uri? then was
    else
      var stream, inf := StreamPending(lines, i - 1), InfPending(lines, i - 1).Some?;
      was && !((stream || inf) && (l.absolute.None? || !stream))
  }

  predicate AnyStreamInf(lines: seq<Line>, i: nat)
    requires i <= |lines|
  {
    exists k: nat :: k < i && lines[k].StreamInf?
  }

  predicate AnyTarget(lines: seq<Line>, i: nat)
    requires i <= |lines|
  {
    exists k: nat :: k < i && lines[k].TargetDuration?
  }

  // A variant tag makes a master playlist, whatever comes with it; a target duration, a media playlist.
  function KindOf(lines: seq<Line>, i: nat): Kind
    requires i <= |lines|
  {
    if AnyStreamInf(lines, i) then MasterPlaylist else if AnyTarget(lines, i) then MediaPlaylist else UnknownKind
  }

  // The last target duration given.
  function TargetOf(lines: seq<Line>, i: nat): real
    requires i <= |lines|
  {
    if i == 0 then 0.0 else if lines[i - 1].TargetDuration? then lines[i - 1].target else TargetOf(lines, i - 1)
  }

  predicate Ended(lines: seq<Line>, i: nat)
    requires i <= |lines|
  {
    exists k: nat :: k < i && lines[k].EndList?
  }

  lemma KindGrows(lines: seq<Line>, i: nat)
    requires i < |lines|
    ensures KindOf(lines, i + 1) ==
      if lines[i].StreamInf? then MasterPlaylist
      else if lines[i].TargetDuration? && KindOf(lines, i).UnknownKind? then MediaPlaylist
      else KindOf(lines, i)
    ensures Ended(lines, i + 1) <==> lines[i].EndList? || Ended(lines, i)
  {
    assert AnyStreamInf(lines, i) ==> AnyStreamInf(lines, i + 1);
    assert AnyTarget(lines, i) ==> AnyTarget(lines, i + 1);
  }

  // The last key tag.
  function KeyInForce(lines: seq<Line>, i: nat): Line
    requires i <= |lines|
    ensures KeyInForce(lines, i).Key?
  {
    if i == 0 then Key(NoEncryption, None, None)
    else if lines[i - 1].Key? then lines[i - 1]
    else KeyInForce(lines, i - 1)
  }

  function Saturated(n: int): int {
    if n > LLONG_MAX then LLONG_MAX else n
  }

  // ---- the playlist those lines make -----------------------------------------------------------------

  // The URI line is a segment that is kept.
  predicate Kept(lines: seq<Line>, i: nat)
    requires i < |lines|
  {
    Numbered(lines, i) && lines[i].absolute.Some? && InfPending(lines, i).Some?
  }

  function SegmentAt(lines: seq<Line>, i: nat): Segment
    requires i < |lines| && Kept(lines, i)
  {
    var n, key := Saturated(MediaNumber(lines, i) + Count(lines, i)), KeyInForce(lines, i);
    Segment(lines[i].absolute.value, InfPending(lines, i).value, n, DiscPending(lines, i),
            !key.how.NoEncryption?,
            if key.how.Aes128? then key.uri else None,
            if key.how.Aes128? && key.iv.Some? then key.iv.value else C.SequenceIv(n))
  }

  function Segments(lines: seq<Line>, n: nat): seq<Segment>
    requires n <= |lines|
  {
    if n == 0 then [] else Segments(lines, n - 1) + if Kept(lines, n - 1) then [SegmentAt(lines, n - 1)] else []
  }

  function Variants(lines: seq<Line>, n: nat): seq<string>
    requires n <= |lines|
  {
    if n == 0 then []
    else
      Variants(lines, n - 1) +
      if lines[n - 1].Uri? && StreamPending(lines, n - 1) && lines[n - 1].absolute.Some?
      then [lines[n - 1].absolute.value] else []
  }

  predicate IsPlaylist(lines: seq<Line>) {
    lines != [] && lines[0].Header? && forall k | 0 <= k < |lines| :: !lines[k].HasNul?
  }

  lemma Empty(lines: seq<Line>)
    ensures Segments(lines, 0) == [] && Variants(lines, 0) == []
    ensures KindOf(lines, 0) == UnknownKind && TargetOf(lines, 0) == 0.0 && !Ended(lines, 0)
  {}

  // What one more line adds.
  lemma Grows(lines: seq<Line>, i: nat)
    requires i < |lines|
    ensures Segments(lines, i + 1) == Segments(lines, i) + if Kept(lines, i) then [SegmentAt(lines, i)] else []
    ensures Variants(lines, i + 1) ==
      Variants(lines, i) +
      if lines[i].Uri? && StreamPending(lines, i) && lines[i].absolute.Some? then [lines[i].absolute.value] else []
  {}

  // The tags about the playlist as a whole; any line but the header can be one.
  method TakeTag(lines: seq<Line>, i: nat, kind: Kind, target: real, endlist: bool)
      returns (kind': Kind, target': real, endlist': bool)
    requires i < |lines|
    requires kind == KindOf(lines, i) && target == TargetOf(lines, i) && endlist == Ended(lines, i)
    ensures kind' == KindOf(lines, i + 1) && target' == TargetOf(lines, i + 1) && endlist' == Ended(lines, i + 1)
  {
    KindGrows(lines, i);
    hide KindOf, Ended;
    kind', target', endlist' := kind, target, endlist;
    match lines[i]
    case StreamInf => kind' := MasterPlaylist;
    case TargetDuration(t) =>
      target' := t;
      if kind.UnknownKind? { kind' := MediaPlaylist; }
    case EndList => endlist' := true;
    case _ =>
  }

  // ---- m3u8_parse ------------------------------------------------------------------------------------

  /** m3u8_parse. Every segment kept is what the lines before it say: it is a URI line after an EXTINF that
      no variant claims; its number is the media sequence plus the count of earlier URI lines that are no
      variants, kept or not, short of overflow; its key data are the last EXT-X-KEY's; and its IV is the one
      given there or else that of its number. */
  method Parse(lines: seq<Line>) returns (r: Option<Media>)
    requires forall k | 0 <= k < |lines| :: LineOk(lines[k])
    ensures r.Some? <==> IsPlaylist(lines)
    ensures r.Some? ==>
      r.value.segments == Segments(lines, |lines|) && r.value.variants == Variants(lines, |lines|) &&
      r.value.mediaSequence == MediaNumber(lines, |lines|) && r.value.kind == KindOf(lines, |lines|) &&
      r.value.target == TargetOf(lines, |lines|) && r.value.endlist == Ended(lines, |lines|)
  {
    var seenHeader, haveExtInf, haveStreamInf, pendingDisc, seenUri := false, false, false, false, false;
    var pendingDur, nextSeq, mediaSequence := 0.0, 0, 0;
    var keyEnc, keyUri, keyIv := false, None, None;
    var segments: seq<Segment>, variants: seq<string> := [], [];
    var kind, target, endlist := UnknownKind, 0.0, false;
    hide Segments, Variants, KindOf, Ended, TargetOf;
    Empty(lines);
    for i := 0 to |lines|
      invariant seenHeader <==> i > 0
      invariant (forall k | 0 <= k < i :: !lines[k].HasNul?) && (i > 0 ==> lines[0].Header?)
      invariant haveStreamInf == StreamPending(lines, i)
      invariant haveExtInf == InfPending(lines, i).Some? && (haveExtInf ==> InfPending(lines, i).value == pendingDur)
      invariant pendingDisc == DiscPending(lines, i)
      invariant seenUri <==> Count(lines, i) > 0
      invariant mediaSequence == MediaNumber(lines, i) && 0 <= mediaSequence <= LLONG_MAX
      invariant nextSeq == Saturated(mediaSequence + Count(lines, i))
      invariant var k := KeyInForce(lines, i);
        keyEnc == !k.how.NoEncryption? && keyUri == (if k.how.Aes128? then k.uri else None) &&
        keyIv == (if k.how.Aes128? then k.iv else None)
      invariant segments == Segments(lines, i) && variants == Variants(lines, i)
      invariant kind == KindOf(lines, i) && target == TargetOf(lines, i) && endlist == Ended(lines, i)
    {
      var line := lines[i];
      Grows(lines, i);
      kind, target, endlist := TakeTag(lines, i, kind, target, endlist);
      if line.HasNul? { return None; }
      if !seenHeader {
        if !line.Header? { return None; }
        seenHeader := true;
      } else {
        match line
        case ExtInf(duration) => pendingDur, haveExtInf := duration, true;
        case StreamInf => haveStreamInf := true;
        case MediaSequence(number) =>
          if !seenUri && number.Some? { mediaSequence, nextSeq := number.value, number.value; }
        case Discontinuity => pendingDisc := true;
        case Key(how, uri, iv) =>
          keyEnc := !how.NoEncryption?;
          keyUri := if how.Aes128? then uri else None;
          keyIv := if how.Aes128? then iv else None;
        case Uri(absolute) =>
          var number := nextSeq;
          if !haveStreamInf {
            if nextSeq < LLONG_MAX { nextSeq := nextSeq + 1; }
            seenUri := true;
          }
          if haveStreamInf || haveExtInf {
            if absolute.None? {
              haveStreamInf, haveExtInf, pendingDisc := false, false, false;
            } else if haveStreamInf {
              variants := variants + [absolute.value];
              haveStreamInf := false;
            } else {
              var iv := if keyIv.Some? then keyIv.value else C.SequenceIv(number);
              segments := segments + [Segment(absolute.value, pendingDur, number, pendingDisc, keyEnc, keyUri, iv)];
              haveExtInf, pendingDisc := false, false;
            }
          }
        case _ =>
      }
    }
    r := if seenHeader then Some(Media(kind, segments, variants, mediaSequence, target, endlist)) else None;
  }

  // ---- what follows for any playlist --------------------------------------------------------------------

  // Once a number has been taken, the media sequence is settled.
  lemma {:induction false} MediaFixed(lines: seq<Line>, i: nat, n: nat)
    requires i <= n <= |lines| && Count(lines, i) > 0
    ensures MediaNumber(lines, n) == MediaNumber(lines, i) && Count(lines, n) >= Count(lines, i)
    decreases n
  {
    if i < n { MediaFixed(lines, i, n - 1); }
  }

  /** A kept segment's number is the playlist's media sequence plus the count of the numbered URI lines
      before it, held at LLONG_MAX. */
  lemma NumberOf(lines: seq<Line>, i: nat)
    requires i < |lines| && Kept(lines, i)
    ensures SegmentAt(lines, i).seqNo == Saturated(MediaNumber(lines, |lines|) + Count(lines, i))
  {
    MediaFixed(lines, i + 1, |lines|);
  }

  lemma {:induction false} CountGrows(lines: seq<Line>, i: nat, j: nat)
    requires i < j <= |lines| && Numbered(lines, i)
    ensures Count(lines, i) < Count(lines, j)
    decreases j
  {
    if i + 1 < j { CountGrows(lines, i, j - 1); }
  }

  // Where the k-th segment's URI line is.
  lemma {:induction false} SegmentLine(lines: seq<Line>, n: nat, k: nat) returns (i: nat)
    requires n <= |lines| && k < |Segments(lines, n)|
    ensures i < n && Kept(lines, i) && Segments(lines, n)[k] == SegmentAt(lines, i) && |Segments(lines, i)| == k
    decreases n
  {
    if k < |Segments(lines, n - 1)| { i := SegmentLine(lines, n - 1, k); } else { i := n - 1; }
  }

  lemma {:induction false} SegmentsGrow(lines: seq<Line>, i: nat, n: nat)
    requires i <= n <= |lines|
    ensures |Segments(lines, i)| <= |Segments(lines, n)|
    decreases n
  {
    if i < n { SegmentsGrow(lines, i, n - 1); }
  }

  /** Segment numbers strictly increase through a playlist, until they are held at the top of their range. */
  lemma NumbersRise(lines: seq<Line>, a: nat, b: nat)
    requires a < b < |Segments(lines, |lines|)|
    ensures var s := Segments(lines, |lines|); s[a].seqNo < s[b].seqNo || s[b].seqNo == 0x7FFF_FFFF_FFFF_FFFF
  {
    var i := SegmentLine(lines, |lines|, a);
    var j := SegmentLine(lines, |lines|, b);
    if j < i { SegmentsGrow(lines, j, i); }
    NumberOf(lines, i);
    NumberOf(lines, j);
    CountGrows(lines, i, j);
  }

  /** The key in force is that of the last key tag, if there is one. */
  lemma {:induction false} KeyIsLast(lines: seq<Line>, i: nat, j: nat)
    requires j < i <= |lines| && lines[j].Key? && forall k | j < k < i :: !lines[k].Key?
    ensures KeyInForce(lines, i) == lines[j]
    decreases i
  {
    if j < i - 1 { KeyIsLast(lines, i - 1, j); }
  }

  /** A playlist can number a segment LLONG_MAX, after which there is no number. */
  lemma TopOfTheRange(uri: string, duration: real)
    ensures var lines := [Header, MediaSequence(Some(0x7FFF_FFFF_FFFF_FFFF)), ExtInf(duration), Uri(Some(uri))];
      Kept(lines, 3) && SegmentAt(lines, 3).seqNo == 0x7FFF_FFFF_FFFF_FFFF
  {
    var lines := [Header, MediaSequence(Some(LLONG_MAX)), ExtInf(duration), Uri(Some(uri))];
    assert Count(lines, 0) == Count(lines, 1) == Count(lines, 2) == Count(lines, 3) == 0;
    assert MediaNumber(lines, 2) == MediaNumber(lines, 3) == LLONG_MAX;
    assert !StreamPending(lines, 1) && !StreamPending(lines, 2) && !StreamPending(lines, 3);
  }
}
