/** src/adts_scan.c, what it decides: a stream taken apart into ADTS frames (ISO/IEC 14496-3, section
    1.A.2.2), ID3v2 tags (ID3v2.4.0 structure, sections 3.1 and 3.4) and junk bytes. */
module AdtsStream {
  import opened Prelude

  const ADTS_HDR := 7
  const ADTS_MAX := 8191
  const ADTS_LOOK := 10
  const SCAN_CAP := ADTS_MAX + ADTS_LOOK + 8
  const ID3_MAX := 0x10_0000

  // ---- headers ------------------------------------------------------------------------------------

  // The 13-bit frame length.
  function DeclaredLen(p: Bytes): (r: nat)
    requires |p| >= ADTS_HDR
    ensures r <= ADTS_MAX
  {
    (p[3] as int % 4) * 2048 + p[4] as int * 8 + p[5] as int / 32
  }

  // adts_len: the frame length at p, or 0 if p is not a valid header.
  function AdtsLen(p: Bytes): (r: nat)
    ensures r <= ADTS_MAX && (r > 0 ==> r > ADTS_HDR)
  {
    if |p| < ADTS_HDR then 0
    else if p[0] != 0xFF || p[1] as int / 16 != 15 || p[1] as int / 2 % 4 != 0 then 0
    else if p[2] as int / 4 % 16 > 12 then 0
    else if (p[2] as int % 2) * 4 + p[3] as int / 64 == 0 then 0
    else if DeclaredLen(p) > (if p[1] as int % 2 == 1 then 7 else 9) then DeclaredLen(p)
    else 0
  }

  // A syncsafe number: seven bits a byte.
  function Syncsafe(p: Bytes): nat
    requires |p| == 4
  {
    p[0] as int * 0x20_0000 + p[1] as int * 0x4000 + p[2] as int * 0x80 + p[3] as int
  }

  // id3_len: the length of the tag at p, or 0 if p is not a valid tag header.
  function Id3Len(p: Bytes): (r: nat)
    ensures r <= ID3_MAX && (r > 0 ==> r >= 10)
  {
    if |p| < 10 || !Id3Prefix(p) then 0
    else if p[3] == 0xFF || p[4] == 0xFF || p[6] >= 128 || p[7] >= 128 || p[8] >= 128 || p[9] >= 128 then 0
    else
      var size := Syncsafe(p[6..10]) + 10 + (if p[5] as int / 16 % 2 == 1 then 10 else 0);
      if size > ID3_MAX then 0 else size
  }

  // id3_prefix
  predicate Id3Prefix(p: Bytes) {
    (|p| > 0 ==> p[0] == 0x49) && (|p| > 1 ==> p[1] == 0x44) && (|p| > 2 ==> p[2] == 0x33)
  }

  // ---- one decision -------------------------------------------------------------------------------

  // What drain does with the bytes in view: leave them for later, emit or drop so many, or skip one,
  // in which case the sync may be lost.
  datatype Choice = Wait | Frame(len: nat) | Tag(len: nat) | Junk(unlock: bool)

  function Decide(view: Bytes, locked: bool): (r: Choice)
    requires view != []
    ensures r.Frame? ==> ADTS_HDR < r.len <= |view| && r.len <= ADTS_MAX
    ensures r.Tag? ==> 10 <= r.len <= ID3_MAX && |view| >= 10
  {
    if view[0] == 0x49 then
      if |view| < 10 then if Id3Prefix(view) then Wait else Junk(false)
      else if Id3Len(view) > 0 then Tag(Id3Len(view))
      else Junk(false)
    else if view[0] == 0xFF then
      if |view| < ADTS_HDR then Wait
      else
        var len := AdtsLen(view);
        if len == 0 then Junk(true)
        else if locked then if |view| < len then Wait else Frame(len)
        else if |view| < len + ADTS_LOOK then Wait
        else if AdtsLen(view[len..]) != 0 || Id3Len(view[len..]) != 0 then Frame(len)
        else Junk(true)
    else Junk(false)
  }

  /** A decision, once made, is not changed by the bytes that follow. */
  lemma DecideMonotone(view: Bytes, more: Bytes, locked: bool)
    requires view != [] && !Decide(view, locked).Wait?
    ensures Decide(view + more, locked) == Decide(view, locked)
  {
    var all := view + more;
    if view[0] == 0x49 {
      Id3Monotone(view, more);
    } else if view[0] == 0xFF && |view| >= ADTS_HDR {
      AdtsMonotone(view, more);
      var len := AdtsLen(view);
      if len != 0 && !locked {
        assert all[len..] == view[len..] + more;
        AdtsMonotone(view[len..], more);
        Id3Monotone(view[len..], more);
      }
    }
  }

  lemma AdtsMonotone(view: Bytes, more: Bytes)
    requires |view| >= ADTS_HDR
    ensures AdtsLen(view + more) == AdtsLen(view)
  {}

  lemma Id3Monotone(view: Bytes, more: Bytes)
    ensures |view| >= 10 ==> Id3Len(view + more) == Id3Len(view)
    ensures |view| < 10 && !Id3Prefix(view) ==> Id3Len(view + more) == 0 && !Id3Prefix(view + more)
  {
    var all := view + more;
    if |view| >= 10 {
      assert all[6..10] == view[6..10];
    }
  }

  /** The buffer always holds enough to decide: at most ADTS_MAX + 9 = 8200 bytes can be left waiting. */
  lemma WaitsAreShort(view: Bytes, locked: bool)
    requires view != [] && Decide(view, locked).Wait?
    ensures |view| <= ADTS_MAX + ADTS_LOOK - 1
  {}

  // ---- a stream taken apart -------------------------------------------------------------------------

  datatype Piece = Emitted(bytes: Bytes) | Dropped(bytes: Bytes, unlock: bool) | Skipped(b: byte)

  function PieceBytes(p: Piece): Bytes {
    match p
    case Emitted(bytes) => bytes
    case Dropped(bytes, _) => bytes
    case Skipped(b) => [b]
  }

  function Joined(ps: seq<Piece>): Bytes {
    if ps == [] then [] else PieceBytes(ps[0]) + Joined(ps[1..])
  }

  function Frames(ps: seq<Piece>): seq<Bytes> {
    if ps == [] then [] else (if ps[0].Emitted? then [ps[0].bytes] else []) + Frames(ps[1..])
  }

  function Junks(ps: seq<Piece>): nat {
    if ps == [] then 0 else (if ps[0].Skipped? then 1 else 0) + Junks(ps[1..])
  }

  function Tags(ps: seq<Piece>): nat {
    if ps == [] then 0 else (if ps[0].Dropped? then 1 else 0) + Tags(ps[1..])
  }

  // The scanner between pieces: what it holds, how much of a tag is still to come, and the sync.
  datatype Held = Held(buf: Bytes, skipLeft: nat, locked: bool)

  // pieces are what the scanner makes of input, starting with the given sync, and h is what it then
  // holds. A tag costs the sync (unlock) only if it was not wholly in view when it was decided on; one
  // whose end has not come yet is the last piece.
  ghost predicate Explains(input: Bytes, locked: bool, pieces: seq<Piece>, h: Held)
    decreases |pieces|
  {
    if pieces == [] then h == Held(input, 0, locked)
    else if input == [] then false
    else
      match Decide(input, locked)
      case Wait => false
      case Frame(len) => pieces[0] == Emitted(input[..len]) && Explains(input[len..], true, pieces[1..], h)
      case Junk(unlock) =>
        pieces[0] == Skipped(input[0]) && Explains(input[1..], locked && !unlock, pieces[1..], h)
      case Tag(len) =>
        if len <= |input| then
          && pieces[0].Dropped? && pieces[0].bytes == input[..len]
          && Explains(input[len..], locked && !pieces[0].unlock, pieces[1..], h)
        else pieces == [Dropped(input, true)] && h == Held([], len - |input|, locked)
  }

  // Nothing that could be decided is left undecided.
  predicate Settled(h: Held) {
    h.buf == [] || (h.skipLeft == 0 && Decide(h.buf, h.locked).Wait?)
  }

  // The sync after the first piece.
  function LockAfter(input: Bytes, locked: bool, p: Piece): bool
    requires input != []
  {
    match p
    case Emitted(_) => true
    case Dropped(_, unlock) => locked && !unlock
    case Skipped(_) => locked && Decide(input, locked) != Junk(true)
  }

  // A tag begins here whose end has not come.
  predicate Outruns(input: Bytes, locked: bool)
    requires input != []
  {
    Decide(input, locked).Tag? && Decide(input, locked).len > |input|
  }

  // The first piece, and what explains the rest.
  lemma Unfold(input: Bytes, locked: bool, pieces: seq<Piece>, h: Held)
    requires Explains(input, locked, pieces, h) && pieces != []
    ensures var n := |PieceBytes(pieces[0])|;
      && 0 < n <= |input| && PieceBytes(pieces[0]) == input[..n]
      && (if Outruns(input, locked) then
            pieces == [Dropped(input, true)] && h == Held([], Decide(input, locked).len - |input|, locked)
          else Explains(input[n..], LockAfter(input, locked, pieces[0]), pieces[1..], h))
  {
    hide Decide;
  }

  /** Conservation: the input is the pieces in order, and after them what is held. */
  lemma {:induction false} NothingLost(input: Bytes, locked: bool, pieces: seq<Piece>, h: Held)
    requires Explains(input, locked, pieces, h)
    ensures input == Joined(pieces) + h.buf
    ensures h.skipLeft > 0 ==> h.buf == []
    decreases |pieces|
  {
    if pieces == [] {
      assert [] + input == input;
    } else {
      Unfold(input, locked, pieces, h);
      hide Explains, Decide, PieceBytes;
      var n := |PieceBytes(pieces[0])|;
      if Outruns(input, locked) {
        assert pieces[1..] == [] && Joined([]) == [];
        assert input[..n] + [] == input[..n];
        OnlyPiece(pieces, input);
      } else {
        NothingLost(input[n..], LockAfter(input, locked, pieces[0]), pieces[1..], h);
        Reassemble(input, n, Joined(pieces[1..]), h.buf);
      }
    }
  }

  lemma Reassemble(input: Bytes, n: nat, a: Bytes, b: Bytes)
    requires n <= |input| && input[n..] == a + b
    ensures input == input[..n] + a + b
  {
    assert input == input[..n] + input[n..];
  }

  lemma OnlyPiece(pieces: seq<Piece>, bytes: Bytes)
    requires pieces == [Dropped(bytes, true)]
    ensures Joined(pieces) == bytes
  {
    assert pieces[1..] == [] && bytes + [] == bytes;
  }

  lemma FirstDeclaresItself(input: Bytes, locked: bool, pieces: seq<Piece>, h: Held)
    requires Explains(input, locked, pieces, h) && pieces != []
    ensures pieces[0].Emitted? ==> AdtsLen(pieces[0].bytes) == |pieces[0].bytes|
    ensures pieces[0].Dropped? && !Outruns(input, locked) ==> Id3Len(pieces[0].bytes) == |pieces[0].bytes|
  {
    Unfold(input, locked, pieces, h);
    var n := |PieceBytes(pieces[0])|;
    assert input == input[..n] + input[n..];
    AdtsMonotoneIf(input[..n], input[n..]);
    Id3Monotone(input[..n], input[n..]);
    hide AdtsLen, Id3Len;
  }

  lemma AdtsMonotoneIf(view: Bytes, more: Bytes)
    ensures |view| >= ADTS_HDR ==> AdtsLen(view + more) == AdtsLen(view)
  {}

  /** Only slices whose own header declares their length are emitted, or dropped as tags. */
  lemma {:induction false} PiecesDeclareThemselves(input: Bytes, locked: bool, pieces: seq<Piece>, h: Held, k: nat)
    requires Explains(input, locked, pieces, h) && k < |pieces|
    ensures pieces[k].Emitted? ==> AdtsLen(pieces[k].bytes) == |pieces[k].bytes|
    ensures pieces[k].Dropped? && (k < |pieces| - 1 || h.skipLeft == 0) ==> Id3Len(pieces[k].bytes) == |pieces[k].bytes|
    decreases |pieces|
  {
    Unfold(input, locked, pieces, h);
    FirstDeclaresItself(input, locked, pieces, h);
    hide Explains, Decide, AdtsLen, Id3Len;
    if k > 0 {
      PiecesDeclareThemselves(input[|PieceBytes(pieces[0])|..], LockAfter(input, locked, pieces[0]), pieces[1..], h, k - 1);
    }
  }

  /** Without the sync a frame is believed only where the length it declares leads to another header: so it is
      with the first frame to come out, whatever was skipped and dropped before it. */
  lemma {:induction false} FirstFrameConfirmed(input: Bytes, pieces: seq<Piece>, h: Held, k: nat)
    requires Explains(input, false, pieces, h) && k < |pieces| && pieces[k].Emitted?
    requires forall j | 0 <= j < k :: !pieces[j].Emitted?
    ensures var end := |Joined(pieces[..k + 1])|;
      end + 10 <= |input| && (AdtsLen(input[end..]) != 0 || Id3Len(input[end..]) != 0)
    decreases |pieces|
  {
    hide Decide, Joined, AdtsLen, Id3Len, Explains, Outruns;
    Unfold(input, false, pieces, h);
    JoinedFirst(pieces, k);
    if k == 0 {
      ConfirmedNow(input, pieces, h);
    } else {
      var n := |PieceBytes(pieces[0])|;
      FirstFrameConfirmed(input[n..], pieces[1..], h, k - 1);
      var end := |Joined(pieces[1..][..k])|;
      assert input[n..][end..] == input[n + end..];
    }
  }

  lemma JoinedFirst(ps: seq<Piece>, k: nat)
    requires k < |ps|
    ensures |Joined(ps[..k + 1])| == |PieceBytes(ps[0])| + |Joined(ps[1..][..k])| && Joined([]) == []
    ensures k == 0 ==> ps[1..][..k] == []
  {
    assert ps[..k + 1][1..] == ps[1..][..k];
  }

  lemma ConfirmedNow(input: Bytes, pieces: seq<Piece>, h: Held)
    requires Explains(input, false, pieces, h) && pieces != [] && pieces[0].Emitted?
    ensures var end := |pieces[0].bytes|;
      end + 10 <= |input| && (AdtsLen(input[end..]) != 0 || Id3Len(input[end..]) != 0)
  {
    hide AdtsLen, Id3Len;
  }

  /** What a settled scanner holds back is at most 8200 bytes. */
  lemma HeldIsShort(h: Held)
    requires Settled(h)
    ensures |h.buf| <= 8200
  {
    if h.buf != [] { WaitsAreShort(h.buf, h.locked); }
  }

  // ---- growing ------------------------------------------------------------------------------------------

  // More input comes behind what is held.
  lemma {:induction false} ExplainsMore(input: Bytes, locked: bool, pieces: seq<Piece>, h: Held, more: Bytes)
    requires Explains(input, locked, pieces, h) && h.skipLeft == 0
    ensures Explains(input + more, locked, pieces, h.(buf := h.buf + more))
    decreases |pieces|
  {
    hide Decide;
    if pieces != [] {
      DecideMonotone(input, more, locked);
      match Decide(input, locked)
      case Frame(len) =>
        assert (input + more)[len..] == input[len..] + more && (input + more)[..len] == input[..len];
        ExplainsMore(input[len..], true, pieces[1..], h, more);
      case Junk(unlock) =>
        assert (input + more)[1..] == input[1..] + more;
        ExplainsMore(input[1..], locked && !unlock, pieces[1..], h, more);
      case Tag(len) =>
        assert (input + more)[len..] == input[len..] + more && (input + more)[..len] == input[..len];
        ExplainsMore(input[len..], locked && !pieces[0].unlock, pieces[1..], h, more);
    }
  }

  // One more piece is decided on.
  function Next(h: Held, unlock: bool): (Piece, Held)
    requires h.buf != [] && h.skipLeft == 0 && !Decide(h.buf, h.locked).Wait?
  {
    match Decide(h.buf, h.locked)
    case Frame(len) => (Emitted(h.buf[..len]), Held(h.buf[len..], 0, true))
    case Junk(lost) => (Skipped(h.buf[0]), Held(h.buf[1..], 0, h.locked && !lost))
    case Tag(len) =>
      if len <= |h.buf| then (Dropped(h.buf[..len], unlock), Held(h.buf[len..], 0, h.locked && !unlock))
      else (Dropped(h.buf, true), Held([], len - |h.buf|, h.locked))
  }

  lemma {:induction false} ExplainsNext(input: Bytes, locked: bool, pieces: seq<Piece>, h: Held, unlock: bool)
    requires Explains(input, locked, pieces, h)
    requires h.buf != [] && h.skipLeft == 0 && !Decide(h.buf, h.locked).Wait?
    ensures var (p, h') := Next(h, unlock); Explains(input, locked, pieces + [p], h')
    decreases |pieces|
  {
    hide Decide;
    var (p, h') := Next(h, unlock);
    if pieces == [] {
      assert [p][1..] == [];
      assert forall i: Bytes, l :: Explains(i, l, [], Held(i, 0, l));
    } else {
      assert (pieces + [p])[1..] == pieces[1..] + [p];
      match Decide(input, locked)
      case Frame(len) => ExplainsNext(input[len..], true, pieces[1..], h, unlock);
      case Junk(lost) => ExplainsNext(input[1..], locked && !lost, pieces[1..], h, unlock);
      case Tag(len) => ExplainsNext(input[len..], locked && !pieces[0].unlock, pieces[1..], h, unlock);
    }
  }

  // More of a tag that outran the buffer arrives, or the rest of it.
  function WithTail(ps: seq<Piece>, bytes: Bytes): seq<Piece>
    requires ps != [] && ps[|ps| - 1].Dropped?
  {
    ps[..|ps| - 1] + [Dropped(ps[|ps| - 1].bytes + bytes, true)]
  }

  // At the tag itself.
  lemma {:induction false} ExplainsTail(input: Bytes, locked: bool, pieces: seq<Piece>, h: Held, more: Bytes)
    requires Explains(input, locked, pieces, h) && 0 < |more| <= h.skipLeft
    requires input != [] && Outruns(input, locked) && Decide(input + more, locked) == Decide(input, locked)
    ensures pieces != [] && pieces[|pieces| - 1].Dropped?
    ensures Explains(input + more, locked, WithTail(pieces, more),
                     if |more| < h.skipLeft then Held([], h.skipLeft - |more|, h.locked) else Held([], 0, false))
  {
    hide Decide;
    assert pieces != [];
    assert WithTail(pieces, more)[1..] == [] && WithTail(pieces, more)[0] == Dropped(input + more, true);
    if |more| == h.skipLeft {
      assert (input + more)[|input + more|..] == [] && (input + more)[..|input + more|] == input + more;
      assert Explains([], false, [], Held([], 0, false));
    }
  }

  lemma {:induction false} ExplainsSkip(input: Bytes, locked: bool, pieces: seq<Piece>, h: Held, more: Bytes)
    requires Explains(input, locked, pieces, h) && 0 < |more| <= h.skipLeft
    ensures pieces != [] && pieces[|pieces| - 1].Dropped?
    ensures Explains(input + more, locked, WithTail(pieces, more),
                     if |more| < h.skipLeft then Held([], h.skipLeft - |more|, h.locked) else Held([], 0, false))
    decreases |pieces|
  {
    hide Decide;
    assert pieces != [];
    DecideMonotone(input, more, locked);
    match Decide(input, locked)
    case Frame(len) =>
      assert (input + more)[len..] == input[len..] + more && (input + more)[..len] == input[..len];
      ExplainsSkip(input[len..], true, pieces[1..], h, more);
      assert WithTail(pieces, more)[1..] == WithTail(pieces[1..], more);
    case Junk(unlock) =>
      assert (input + more)[1..] == input[1..] + more;
      ExplainsSkip(input[1..], locked && !unlock, pieces[1..], h, more);
      assert WithTail(pieces, more)[1..] == WithTail(pieces[1..], more);
    case Tag(len) =>
      if len <= |input| {
        assert (input + more)[len..] == input[len..] + more && (input + more)[..len] == input[..len];
        ExplainsSkip(input[len..], locked && !pieces[0].unlock, pieces[1..], h, more);
        assert WithTail(pieces, more)[1..] == WithTail(pieces[1..], more);
      } else {
        ExplainsTail(input, locked, pieces, h, more);
      }
  }

  // ---- streams without tags -----------------------------------------------------------------------------

  predicate TagAt(input: Bytes, i: nat)
    requires i + 3 <= |input|
  {
    input[i] == 0x49 && input[i + 1] == 0x44 && input[i + 2] == 0x33
  }

  ghost predicate NoTag(input: Bytes) {
    forall i: nat | i + 3 <= |input| :: !TagAt(input, i)
  }

  lemma NoTagDecided(input: Bytes, locked: bool)
    requires input != [] && NoTag(input)
    ensures !Decide(input, locked).Tag?
  {
    if |input| >= 3 { assert !TagAt(input, 0); }
  }

  lemma NoTagLater(input: Bytes, n: nat)
    requires NoTag(input) && n <= |input|
    ensures NoTag(input[n..])
  {
    forall i: nat | i + 3 <= |input[n..]|
      ensures !TagAt(input[n..], i)
    {
      assert !TagAt(input, n + i);
    }
  }

  // No whole tag is come to.
  predicate Tagless(input: Bytes, locked: bool)
    decreases |input|
  {
    input == [] ||
    match Decide(input, locked)
    case Wait => true
    case Frame(len) => Tagless(input[len..], true)
    case Junk(lost) => Tagless(input[1..], locked && !lost)
    case Tag(len) => len > |input|
  }

  // So it is where the triple "ID3" does not occur.
  lemma {:induction false} NoTagIsTagless(input: Bytes, locked: bool)
    requires NoTag(input)
    ensures Tagless(input, locked)
    decreases |input|
  {
    if input != [] {
      NoTagDecided(input, locked);
      var c := Decide(input, locked);
      hide Decide, NoTag;
      match c
      case Wait =>
      case Frame(len) =>
        NoTagLater(input, len);
        NoTagIsTagless(input[len..], true);
      case Junk(lost) =>
        NoTagLater(input, 1);
        NoTagIsTagless(input[1..], locked && !lost);
    }
  }

  /** Where no whole tag is come to, cutting the stream differently changes nothing at all: two scanners that
      have had the same bytes and left nothing undecided have emitted and skipped the same and hold the same,
      the sync included. */
  lemma {:induction false} CuttingIrrelevant(input: Bytes, locked: bool, ps: seq<Piece>, h: Held, qs: seq<Piece>, g: Held)
    requires Explains(input, locked, ps, h) && Settled(h)
    requires Explains(input, locked, qs, g) && Settled(g)
    requires Tagless(input, locked)
    ensures ps == qs && h == g
    decreases |ps|
  {
    if input != [] && ps != [] && qs != [] {
      Unfold(input, locked, ps, h);
      Unfold(input, locked, qs, g);
      if !Outruns(input, locked) {
        SamePiece(input, locked, ps, h, qs, g);
        var n := |PieceBytes(ps[0])|;
        assert Tagless(input[n..], LockAfter(input, locked, ps[0])) by { TaglessLater(input, locked, ps, h); }
        hide Explains, Decide, Settled, Tagless;
        CuttingIrrelevant(input[n..], LockAfter(input, locked, ps[0]), ps[1..], h, qs[1..], g);
        assert ps == [ps[0]] + ps[1..] && qs == [qs[0]] + qs[1..];
      }
    }
  }

  lemma TaglessLater(input: Bytes, locked: bool, ps: seq<Piece>, h: Held)
    requires input != [] && ps != [] && Explains(input, locked, ps, h) && Tagless(input, locked) && !Outruns(input, locked)
    ensures |PieceBytes(ps[0])| <= |input| && Tagless(input[|PieceBytes(ps[0])|..], LockAfter(input, locked, ps[0]))
  {
    Unfold(input, locked, ps, h);
    hide Decide;
  }

  lemma SamePiece(input: Bytes, locked: bool, ps: seq<Piece>, h: Held, qs: seq<Piece>, g: Held)
    requires input != [] && ps != [] && qs != [] && Tagless(input, locked) && !Outruns(input, locked)
    requires Explains(input, locked, ps, h) && Explains(input, locked, qs, g)
    ensures ps[0] == qs[0]
  {
    hide Decide;
  }

  // ---- streams of whole frames and tags --------------------------------------------------------------------

  datatype Item = AFrame(bytes: Bytes) | ATag(bytes: Bytes)

  // A valid frame or tag: its header declares its length.
  predicate ItemOk(it: Item) {
    if it.AFrame? then it.bytes != [] && AdtsLen(it.bytes) == |it.bytes|
    else it.bytes != [] && Id3Len(it.bytes) == |it.bytes|
  }

  function ItemsBytes(items: seq<Item>): Bytes {
    if items == [] then [] else items[0].bytes + ItemsBytes(items[1..])
  }

  function ItemFrames(items: seq<Item>): seq<Bytes> {
    if items == [] then [] else (if items[0].AFrame? then [items[0].bytes] else []) + ItemFrames(items[1..])
  }

  // A header is recognised from its first bytes.
  lemma SameHeader(a: Bytes, b: Bytes)
    ensures |a| >= ADTS_HDR && |b| >= ADTS_HDR && a[..ADTS_HDR] == b[..ADTS_HDR] ==> AdtsLen(a) == AdtsLen(b)
    ensures |a| >= 10 && |b| >= 10 && a[..10] == b[..10] ==> Id3Len(a) == Id3Len(b)
  {
    if |a| >= 10 && |b| >= 10 && a[..10] == b[..10] {
      Id3Monotone(a[..10], a[10..]);
      Id3Monotone(b[..10], b[10..]);
      assert a == a[..10] + a[10..] && b == b[..10] + b[10..];
    }
    if |a| >= ADTS_HDR && |b| >= ADTS_HDR && a[..ADTS_HDR] == b[..ADTS_HDR] {
      AdtsMonotone(a[..ADTS_HDR], a[ADTS_HDR..]);
      AdtsMonotone(b[..ADTS_HDR], b[ADTS_HDR..]);
      assert a == a[..ADTS_HDR] + a[ADTS_HDR..] && b == b[..ADTS_HDR] + b[ADTS_HDR..];
    }
    hide AdtsLen, Id3Len;
  }

  // The first bytes of a stream of items show what its first item is.
  lemma ItemShows(input: Bytes, items: seq<Item>)
    requires items != [] && ItemOk(items[0]) && input <= ItemsBytes(items)
    ensures items[0].AFrame? && |input| >= ADTS_HDR ==> AdtsLen(input) == |items[0].bytes|
    ensures items[0].ATag? && |input| >= 10 ==> Id3Len(input) == |items[0].bytes|
    ensures input != [] ==> input[0] == (if items[0].AFrame? then 0xFF else 0x49)
    ensures items[0].ATag? && |input| < 10 ==> Id3Prefix(input)
  {
    var all := ItemsBytes(items);
    assert all[..|items[0].bytes|] == items[0].bytes;
    if items[0].AFrame? {
      if |input| >= ADTS_HDR {
        assert input[..ADTS_HDR] == all[..ADTS_HDR] == items[0].bytes[..ADTS_HDR];
        SameHeader(input, items[0].bytes);
      }
    } else if |input| >= 10 {
      assert input[..10] == all[..10] == items[0].bytes[..10];
      SameHeader(input, items[0].bytes);
    }
  }

  // So nothing but the item itself is ever decided on.
  lemma ItemDecided(input: Bytes, locked: bool, items: seq<Item>)
    requires input != [] && items != [] && (forall it | it in items :: ItemOk(it)) && input <= ItemsBytes(items)
    ensures Decide(input, locked).Wait? ||
      Decide(input, locked) == if items[0].AFrame? then Frame(|items[0].bytes|) else Tag(|items[0].bytes|)
    ensures Decide(input, locked).Wait? ==> |input| < if items[0].AFrame? then |items[0].bytes| + 10 else 10
    ensures Decide(input, locked).Wait? && locked ==> |input| < |items[0].bytes|
  {
    ItemShows(input, items);
    var len := |items[0].bytes|;
    if items[0].AFrame? && |input| >= len + ADTS_LOOK {
      assert ItemsBytes(items)[len..] == ItemsBytes(items[1..]);
      assert input[len..] <= ItemsBytes(items[1..]);
      ItemShows(input[len..], items[1..]);
    }
    hide AdtsLen, Id3Len, Id3Prefix;
  }

  lemma CleanDecided(input: Bytes, locked: bool, pieces: seq<Piece>, h: Held, items: seq<Item>)
    requires Explains(input, locked, pieces, h) && pieces != []
    requires (forall it | it in items :: ItemOk(it)) && input <= ItemsBytes(items)
    ensures input != [] && items != []
    ensures Decide(input, locked) == if items[0].AFrame? then Frame(|items[0].bytes|) else Tag(|items[0].bytes|)
  {
    hide Decide, ItemOk;
    ItemDecided(input, locked, items);
  }

  lemma CleanNone(input: Bytes, locked: bool, h: Held, items: seq<Item>)
    requires Explains(input, locked, [], h) && (forall it | it in items :: ItemOk(it)) && input <= ItemsBytes(items)
    ensures Frames([]) == ItemFrames(items[..0]) && Junks([]) == 0
    ensures Settled(h) ==> forall k | 0 <= k < |items| && items[k].AFrame? ::
      |ItemsBytes(items[..k + 1])| > |input| - 10
  {
    CleanRest(input, locked, h, items);
  }

  lemma NoneClean(pieces: seq<Piece>, items: seq<Item>)
    requires |pieces| == 1 && items != []
    ensures Frames(pieces[1..]) == ItemFrames(items[1..][..0]) && Junks(pieces[1..]) == 0
  {}

  lemma ItemsOn(input: Bytes, items: seq<Item>)
    requires items != [] && (forall it | it in items :: ItemOk(it))
    requires |items[0].bytes| <= |input| && input <= ItemsBytes(items)
    ensures input[|items[0].bytes|..] <= ItemsBytes(items[1..]) && forall it | it in items[1..] :: ItemOk(it)
  {
    hide ItemOk;
    assert ItemsBytes(items)[|items[0].bytes|..] == ItemsBytes(items[1..]);
    assert forall it | it in items[1..] :: it in items;
  }

  // What the pieces of a stream of items are, once the first has been looked at.
  lemma CleanCons(pieces: seq<Piece>, items: seq<Item>)
    requires pieces != [] && items != [] && |pieces| <= |items|
    requires Frames(pieces[1..]) == ItemFrames(items[1..][..|pieces| - 1]) && Junks(pieces[1..]) == 0
    requires pieces[0].Emitted? == items[0].AFrame? && !pieces[0].Skipped?
    requires pieces[0].Emitted? ==> PieceBytes(pieces[0]) == items[0].bytes
    ensures Frames(pieces) == ItemFrames(items[..|pieces|]) && Junks(pieces) == 0
  {
    assert items[..|pieces|][1..] == items[1..][..|pieces| - 1];
  }

  /** A stream of valid frames and tags, however much of it has come and however it was cut: the frames
      come out in order, nothing is skipped, and every frame that ends at least ten bytes before the end of
      what has come so far is out. */
  lemma {:induction false} CleanStream(input: Bytes, locked: bool, pieces: seq<Piece>, h: Held, items: seq<Item>)
    requires Explains(input, locked, pieces, h) && (forall it | it in items :: ItemOk(it))
    requires input <= ItemsBytes(items)
    ensures |pieces| <= |items| && Frames(pieces) == ItemFrames(items[..|pieces|]) && Junks(pieces) == 0
    ensures Settled(h) ==> forall k | |pieces| <= k < |items| && items[k].AFrame? ::
      |ItemsBytes(items[..k + 1])| > |input| - 10
    decreases |pieces|
  {
    hide *;
    if pieces == [] {
      CleanNone(input, locked, h, items);
    } else {
      Unfold(input, locked, pieces, h);
      CleanDecided(input, locked, pieces, h, items);
      CleanPiece(input, locked, pieces, h, items);
      var n := |PieceBytes(pieces[0])|;
      if Outruns(input, locked) {
        NoneClean(pieces, items);
        CleanCons(pieces, items);
        LaterEnds(items, |items[0].bytes| - 1, 1);
      } else {
        ItemsOn(input, items);
        CleanStream(input[n..], LockAfter(input, locked, pieces[0]), pieces[1..], h, items[1..]);
        CleanCons(pieces, items);
        if Settled(h) { EndsShift(items, |pieces|, |input|); }
      }
    }
  }

  /** With the sync held, only part of an item is ever held back: a frame that has come whole is trusted. */
  lemma {:induction false} NothingStranded(input: Bytes, locked: bool, pieces: seq<Piece>, h: Held, items: seq<Item>)
    requires Explains(input, locked, pieces, h) && Settled(h) && h.locked
    requires (forall it | it in items :: ItemOk(it)) && input <= ItemsBytes(items) && |pieces| < |items|
    ensures |ItemsBytes(items[..|pieces| + 1])| > |input|
    decreases |pieces|
  {
    hide *;
    if pieces == [] {
      HeldPart(input, locked, h, items);
    } else {
      Unfold(input, locked, pieces, h);
      CleanDecided(input, locked, pieces, h, items);
      CleanPiece(input, locked, pieces, h, items);
      FirstOf(items, |pieces|);
      if !Outruns(input, locked) {
        ItemsOn(input, items);
        NothingStranded(input[|PieceBytes(pieces[0])|..], LockAfter(input, locked, pieces[0]), pieces[1..], h, items[1..]);
      }
    }
  }

  lemma HeldPart(input: Bytes, locked: bool, h: Held, items: seq<Item>)
    requires Explains(input, locked, [], h) && Settled(h) && h.locked && items != []
    requires (forall it | it in items :: ItemOk(it)) && input <= ItemsBytes(items)
    ensures |ItemsBytes(items[..1])| > |input|
  {
    hide Decide;
    assert items[0] in items;
    assert items[..1][1..] == [] && ItemsBytes(items[..1]) == items[0].bytes + ItemsBytes([]);
    if input != [] { ItemDecided(input, locked, items); }
  }

  // Later items end later than the first.
  lemma LaterEnds(items: seq<Item>, end: int, from: nat)
    requires items != [] && end < |items[0].bytes|
    ensures forall k | from <= k < |items| && items[k].AFrame? :: |ItemsBytes(items[..k + 1])| > end
  {
    forall k | from <= k < |items| && items[k].AFrame?
      ensures |ItemsBytes(items[..k + 1])| > end
    {
      FirstOf(items, k);
    }
  }

  // Where items end, counted without the first of them.
  lemma EndsShift(items: seq<Item>, from: nat, size: nat)
    requires items != [] && from > 0
    requires forall k | from - 1 <= k < |items[1..]| && items[1..][k].AFrame? ::
      |ItemsBytes(items[1..][..k + 1])| > size - |items[0].bytes| - 10
    ensures forall k | from <= k < |items| && items[k].AFrame? :: |ItemsBytes(items[..k + 1])| > size - 10
  {
    forall k | from <= k < |items| && items[k].AFrame?
      ensures |ItemsBytes(items[..k + 1])| > size - 10
    {
      FirstOf(items, k);
      assert items[1..][k - 1] == items[k];
    }
  }

  lemma FirstOf(items: seq<Item>, k: nat)
    requires k < |items|
    ensures |ItemsBytes(items[..k + 1])| == |items[0].bytes| + |ItemsBytes(items[1..][..k])|
  {
    assert items[..k + 1][1..] == items[1..][..k];
  }

  // The first piece is the first item, as far as it has come.
  lemma CleanPiece(input: Bytes, locked: bool, pieces: seq<Piece>, h: Held, items: seq<Item>)
    requires Explains(input, locked, pieces, h) && pieces != [] && items != []
    requires Decide(input, locked) == if items[0].AFrame? then Frame(|items[0].bytes|) else Tag(|items[0].bytes|)
    requires input <= ItemsBytes(items)
    ensures pieces[0].Emitted? == items[0].AFrame? && !pieces[0].Skipped?
    ensures if Outruns(input, locked) then |input| < |items[0].bytes| else PieceBytes(pieces[0]) == items[0].bytes
  {
    Unfold(input, locked, pieces, h);
    hide Decide;
    var len := |items[0].bytes|;
    if len <= |input| {
      assert input[..len] == ItemsBytes(items)[..len] == items[0].bytes;
    }
  }

  // With nothing decided, what is held has no frame ending ten bytes before its end.
  lemma CleanRest(input: Bytes, locked: bool, h: Held, items: seq<Item>)
    requires h == Held(input, 0, locked) && (forall it | it in items :: ItemOk(it)) && input <= ItemsBytes(items)
    ensures Settled(h) ==> forall k | 0 <= k < |items| && items[k].AFrame? ::
      |ItemsBytes(items[..k + 1])| > |input| - 10
  {
    if input != [] && Settled(h) {
      ItemDecided(input, locked, items);
      forall k | 0 <= k < |items| && items[k].AFrame?
        ensures |ItemsBytes(items[..k + 1])| > |input| - 10
      {
        FirstOf(items, k);
      }
    }
  }
}
