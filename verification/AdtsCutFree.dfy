/** src/adts_scan.c: whether what the scanner makes of a stream depends on the tags it found cut. A tag that
    fits in the buffer leaves the sync alone, one that outruns it clears the sync; CutFree says of which
    streams that makes no difference. */
module AdtsCutFree {
  import opened Prelude
  import opened AdtsStream

  // What follows is decided alike with and without the sync, until the two agree on the sync again.
  predicate Neutral(rest: Bytes)
    decreases |rest|
  {
    rest == [] ||
    match Decide(rest, false)
    case Wait => Decide(rest, true).Wait?
    case Frame(_) => true
    case Junk(lost) => Decide(rest, true) == Junk(lost) && (lost || Neutral(rest[1..]))
    case Tag(len) => len > |rest| || Neutral(rest[len..])
  }

  // Wherever a whole tag is passed with the sync held, losing it there would change nothing.
  predicate CutFree(input: Bytes, locked: bool)
    decreases |input|
  {
    input == [] ||
    match Decide(input, locked)
    case Wait => true
    case Frame(len) => CutFree(input[len..], true)
    case Junk(lost) => CutFree(input[1..], locked && !lost)
    case Tag(len) => len > |input| || ((locked ==> Neutral(input[len..])) && CutFree(input[len..], locked))
  }

  // All of the input has been taken, and everything that can be decided has been.
  ghost predicate Outcome(input: Bytes, locked: bool, pieces: seq<Piece>, h: Held) {
    Explains(input, locked, pieces, h) && Settled(h)
  }

  predicate Same(p: Piece, q: Piece) {
    p == q || (p.Dropped? && q.Dropped? && p.bytes == q.bytes)
  }

  // The same pieces, whatever became of the sync at tags; and the same held back.
  predicate Alike(ps: seq<Piece>, h: Held, qs: seq<Piece>, g: Held) {
    && |ps| == |qs| && (forall k | 0 <= k < |ps| :: Same(ps[k], qs[k]))
    && h.buf == g.buf && h.skipLeft == g.skipLeft
  }

  lemma AlikeCons(p: Piece, ps: seq<Piece>, h: Held, q: Piece, qs: seq<Piece>, g: Held)
    requires Same(p, q)
    ensures Alike([p] + ps, h, [q] + qs, g) <==> Alike(ps, h, qs, g)
  {
    hide *;
    if Alike(ps, h, qs, g) { AlikeMore(p, ps, h, q, qs, g); }
    if Alike([p] + ps, h, [q] + qs, g) { AlikeLess(p, ps, h, q, qs, g); }
  }

  lemma AlikeMore(p: Piece, ps: seq<Piece>, h: Held, q: Piece, qs: seq<Piece>, g: Held)
    requires Same(p, q) && Alike(ps, h, qs, g)
    ensures Alike([p] + ps, h, [q] + qs, g)
  {
    hide Same;
    forall k | 0 <= k < |[p] + ps|
      ensures Same(([p] + ps)[k], ([q] + qs)[k])
    {
      if k > 0 { assert Same(ps[k - 1], qs[k - 1]); }
    }
  }

  lemma AlikeLess(p: Piece, ps: seq<Piece>, h: Held, q: Piece, qs: seq<Piece>, g: Held)
    requires Alike([p] + ps, h, [q] + qs, g)
    ensures Alike(ps, h, qs, g)
  {
    hide Same;
    forall k | 0 <= k < |ps|
      ensures Same(ps[k], qs[k])
    {
      assert Same(([p] + ps)[k + 1], ([q] + qs)[k + 1]);
    }
  }

  // ---- enough ---------------------------------------------------------------------------------------

  // As far as the sync may differ, decisions do not.
  lemma NeutralDecides(rest: Bytes, a: bool, b: bool)
    requires rest != [] && (a != b ==> Neutral(rest))
    ensures Decide(rest, a) == Decide(rest, b)
  {}

  lemma {:induction false} FreeWithoutSync(rest: Bytes)
    requires Neutral(rest) && CutFree(rest, true)
    ensures CutFree(rest, false)
    decreases |rest|
  {
    if rest != [] {
      NeutralDecides(rest, true, false);
      match Decide(rest, false) {
        case Junk(lost) => if !lost { FreeWithoutSync(rest[1..]); }
        case Tag(len) => if len <= |rest| { FreeWithoutSync(rest[len..]); }
        case _ =>
      }
    }
  }

  // How many bytes a decision disposes of.
  function Size(c: Choice): nat {
    match c
    case Wait => 0
    case Frame(len) => len
    case Tag(len) => len
    case Junk(_) => 1
  }

  // A piece of the kind a decision makes.
  predicate OfKind(p: Piece, c: Choice) {
    match c
    case Wait => false
    case Frame(_) => p.Emitted?
    case Junk(_) => p.Skipped?
    case Tag(_) => p.Dropped?
  }

  // The piece a decision on the input makes, whatever becomes of the sync.
  predicate IsPiece(input: Bytes, c: Choice, p: Piece) {
    match c
    case Wait => false
    case Frame(len) => len <= |input| && p == Emitted(input[..len])
    case Junk(_) => input != [] && p == Skipped(input[0])
    case Tag(len) => p.Dropped? && len <= |input| && p.bytes == input[..len]
  }

  // After the same first decision, the rest is free again.
  lemma StaysFree(input: Bytes, a: bool, b: bool, p: Piece, q: Piece)
    requires input != [] && CutFree(input, a || b) && (a != b ==> Neutral(input))
    requires Same(p, q) && !Decide(input, a).Wait? && !Outruns(input, a)
    requires OfKind(p, Decide(input, a))
    requires |PieceBytes(p)| == Size(Decide(input, a))
    ensures var rest := input[|PieceBytes(p)|..];
      var a', b' := LockAfter(input, a, p), LockAfter(input, b, q);
      CutFree(rest, a' || b') && (a' != b' ==> Neutral(rest))
  {
    NeutralDecides(input, a, b);
    var c := Decide(input, a);
    if c.Tag? && (a || b) {
      FreeWithoutSync(input[c.len..]);
    }
  }

  lemma FirstPiece(input: Bytes, locked: bool, pieces: seq<Piece>, h: Held)
    requires Outcome(input, locked, pieces, h) && input != []
    ensures pieces == [] <==> Decide(input, locked).Wait?
    ensures pieces == [] ==> h == Held(input, 0, locked)
    ensures pieces != [] ==>
      match Decide(input, locked)
      case Frame(_) => pieces[0].Emitted?
      case Junk(_) => pieces[0].Skipped?
      case Tag(_) => pieces[0].Dropped?
    ensures pieces != [] ==>
      if Outruns(input, locked)
      then pieces == [Dropped(input, true)] && h.buf == [] && h.skipLeft == Decide(input, locked).len - |input|
      else PieceBytes(pieces[0]) == input[..Size(Decide(input, locked))]
  {
    hide Decide;
  }

  // Where nothing can be decided, or a tag outruns the input, outcomes are alike at once.
  lemma AlikeAtOnce(input: Bytes, a: bool, ps: seq<Piece>, h: Held, b: bool, qs: seq<Piece>, g: Held)
    requires Outcome(input, a, ps, h) && Outcome(input, b, qs, g) && (a != b ==> Neutral(input))
    requires input == [] || ps == [] || Outruns(input, a)
    ensures Alike(ps, h, qs, g)
  {
    hide Decide, Neutral;
    if input != [] {
      NeutralDecides(input, a, b);
      FirstPiece(input, a, ps, h);
      FirstPiece(input, b, qs, g);
    }
  }

  // Otherwise they begin alike.
  lemma AlikeFirst(input: Bytes, a: bool, ps: seq<Piece>, h: Held, b: bool, qs: seq<Piece>, g: Held)
    requires Outcome(input, a, ps, h) && Outcome(input, b, qs, g) && (a != b ==> Neutral(input))
    requires input != [] && ps != [] && !Outruns(input, a)
    ensures qs != [] && Same(ps[0], qs[0]) && !Decide(input, a).Wait? && OfKind(ps[0], Decide(input, a))
    ensures var n := |PieceBytes(ps[0])|;
      && n == Size(Decide(input, a)) && 0 < n <= |input|
      && Outcome(input[n..], LockAfter(input, a, ps[0]), ps[1..], h)
      && Outcome(input[n..], LockAfter(input, b, qs[0]), qs[1..], g)
  {
    hide Decide, Neutral, Explains, LockAfter;
    NeutralDecides(input, a, b);
    FirstPiece(input, a, ps, h);
    FirstPiece(input, b, qs, g);
    Unfold(input, a, ps, h);
    Unfold(input, b, qs, g);
  }

  /** Where the stream is free, all outcomes are alike. */
  lemma {:induction false} FreeAlike(input: Bytes, a: bool, ps: seq<Piece>, h: Held, b: bool, qs: seq<Piece>, g: Held)
    requires Outcome(input, a, ps, h) && Outcome(input, b, qs, g)
    requires CutFree(input, a || b) && (a != b ==> Neutral(input))
    ensures Alike(ps, h, qs, g)
    decreases |input|
  {
    hide *;
    if input == [] || ps == [] || Outruns(input, a) {
      AlikeAtOnce(input, a, ps, h, b, qs, g);
    } else {
      AlikeFirst(input, a, ps, h, b, qs, g);
      StaysFree(input, a, b, ps[0], qs[0]);
      var n := |PieceBytes(ps[0])|;
      FreeAlike(input[n..], LockAfter(input, a, ps[0]), ps[1..], h, LockAfter(input, b, qs[0]), qs[1..], g);
      AlikeCons(ps[0], ps[1..], h, qs[0], qs[1..], g);
      assert ps == [ps[0]] + ps[1..] && qs == [qs[0]] + qs[1..];
    }
  }

  // ---- and no less ------------------------------------------------------------------------------------

  // The outcome in which every whole tag is passed with the sync kept.
  function Kept(input: Bytes, locked: bool): (seq<Piece>, Held)
    decreases |input|
  {
    if input == [] || Decide(input, locked).Wait? then ([], Held(input, 0, locked))
    else
      match Decide(input, locked)
      case Frame(len) =>
        var (ps, h) := Kept(input[len..], true);
        ([Emitted(input[..len])] + ps, h)
      case Junk(lost) =>
        var (ps, h) := Kept(input[1..], locked && !lost);
        ([Skipped(input[0])] + ps, h)
      case Tag(len) =>
        if len <= |input| then
          var (ps, h) := Kept(input[len..], locked);
          ([Dropped(input[..len], false)] + ps, h)
        else ([Dropped(input, true)], Held([], len - |input|, locked))
  }

  lemma {:induction false} KeptIsOutcome(input: Bytes, locked: bool)
    ensures Outcome(input, locked, Kept(input, locked).0, Kept(input, locked).1)
    decreases |input|
  {
    if input != [] {
      var c := Decide(input, locked);
      hide Decide;
      match c
      case Wait =>
      case Frame(len) => KeptIsOutcome(input[len..], true);
      case Junk(lost) => KeptIsOutcome(input[1..], locked && !lost);
      case Tag(len) => if len <= |input| { KeptIsOutcome(input[len..], locked); }
    }
  }

  // Put in front of an outcome of the rest, a first piece makes one of the whole.
  lemma OutcomeCons(input: Bytes, locked: bool, p: Piece, ps: seq<Piece>, h: Held)
    requires input != [] && !Outruns(input, locked)
    requires IsPiece(input, Decide(input, locked), p)
    requires Outcome(input[Size(Decide(input, locked))..], LockAfter(input, locked, p), ps, h)
    ensures Outcome(input, locked, [p] + ps, h)
  {
    hide Decide, Settled;
    assert ([p] + ps)[1..] == ps;
  }

  lemma {:induction false} MovedDiffers(rest: Bytes)
    requires !Neutral(rest)
    ensures !Alike(Kept(rest, true).0, Kept(rest, true).1, Kept(rest, false).0, Kept(rest, false).1)
    decreases |rest|
  {
    var (ps, h) := Kept(rest, true);
    var (qs, g) := Kept(rest, false);
    match Decide(rest, false)
    case Wait =>
    case Junk(lost) =>
      if Decide(rest, true) == Junk(lost) {
        MovedDiffers(rest[1..]);
        AlikeCons(ps[0], Kept(rest[1..], true).0, h, qs[0], Kept(rest[1..], false).0, g);
      } else {
        hide Neutral, Alike;
        KindDiffers(rest);
      }
    case Tag(len) =>
      MovedDiffers(rest[len..]);
      AlikeCons(ps[0], Kept(rest[len..], true).0, h, qs[0], Kept(rest[len..], false).0, g);
  }

  // Junk without the sync is junk with it, or waits, or is a frame.
  lemma KindDiffers(rest: Bytes)
    requires rest != [] && Decide(rest, false).Junk? && Decide(rest, true) != Decide(rest, false)
    ensures !Alike(Kept(rest, true).0, Kept(rest, true).1, Kept(rest, false).0, Kept(rest, false).1)
  {
    assert Decide(rest, true).Wait? || Decide(rest, true).Frame?;
    hide Decide;
    var (ps, h) := Kept(rest, true);
    var (qs, g) := Kept(rest, false);
    assert qs != [] && qs[0].Skipped?;
    assert ps == [] || ps[0].Emitted?;
    if ps != [] && |ps| == |qs| { assert !Same(ps[0], qs[0]); }
  }

  /** Where it is not, two outcomes differ. */
  lemma {:induction false} MovedOutcomes(input: Bytes, locked: bool)
      returns (ps: seq<Piece>, h: Held, qs: seq<Piece>, g: Held)
    requires !CutFree(input, locked)
    ensures Outcome(input, locked, ps, h) && Outcome(input, locked, qs, g) && !Alike(ps, h, qs, g)
    decreases |input|
  {
    var c, n := Decide(input, locked), Size(Decide(input, locked));
    var p := if c.Frame? then Emitted(input[..n]) else if c.Junk? then Skipped(input[0]) else Dropped(input[..n], false);
    if c.Tag? && locked && !Neutral(input[n..]) {
      MovedDiffers(input[n..]);
      KeptIsOutcome(input[n..], true);
      KeptIsOutcome(input[n..], false);
      var q := Dropped(input[..n], true);
      var (kept, k) := Kept(input[n..], true);
      var (lost, l) := Kept(input[n..], false);
      OutcomeCons(input, locked, p, kept, k);
      OutcomeCons(input, locked, q, lost, l);
      AlikeCons(p, kept, k, q, lost, l);
      ps, h, qs, g := [p] + kept, k, [q] + lost, l;
    } else {
      ps, h, qs, g := MovedOutcomes(input[n..], LockAfter(input, locked, p));
      OutcomeCons(input, locked, p, ps, h);
      OutcomeCons(input, locked, p, qs, g);
      AlikeCons(p, ps, h, p, qs, g);
      ps, qs := [p] + ps, [p] + qs;
    }
  }

  /** All outcomes of a stream are alike - the same frames, tags and junk, the same bytes held back, the same
      number still to skip - if and only if it is free. */
  lemma AlikeIffFree(input: Bytes, locked: bool)
    ensures CutFree(input, locked) <==>
      forall ps, h, qs, g | Outcome(input, locked, ps, h) && Outcome(input, locked, qs, g) :: Alike(ps, h, qs, g)
  {
    if CutFree(input, locked) {
      forall ps, h, qs, g | Outcome(input, locked, ps, h) && Outcome(input, locked, qs, g)
        ensures Alike(ps, h, qs, g)
      {
        FreeAlike(input, locked, ps, h, locked, qs, g);
      }
    } else {
      var ps, h, qs, g := MovedOutcomes(input, locked);
    }
  }

  // Past a whole tag there are two outcomes, if only in what became of the sync.
  lemma {:induction false} TaggedOutcomes(input: Bytes, locked: bool)
      returns (ps: seq<Piece>, h: Held, qs: seq<Piece>, g: Held)
    requires !Tagless(input, locked)
    ensures Outcome(input, locked, ps, h) && Outcome(input, locked, qs, g) && ps != qs
    decreases |input|
  {
    var c, n := Decide(input, locked), Size(Decide(input, locked));
    if c.Tag? {
      var p, q := Dropped(input[..n], false), Dropped(input[..n], true);
      KeptIsOutcome(input[n..], locked);
      KeptIsOutcome(input[n..], false);
      var (kept, k) := Kept(input[n..], locked);
      var (lost, l) := Kept(input[n..], false);
      OutcomeCons(input, locked, p, kept, k);
      OutcomeCons(input, locked, q, lost, l);
      ps, h, qs, g := [p] + kept, k, [q] + lost, l;
      assert ps[0] != qs[0];
    } else {
      var p := if c.Frame? then Emitted(input[..n]) else Skipped(input[0]);
      ps, h, qs, g := TaggedOutcomes(input[n..], LockAfter(input, locked, p));
      OutcomeCons(input, locked, p, ps, h);
      OutcomeCons(input, locked, p, qs, g);
      assert ([p] + ps)[1..] == ps && ([p] + qs)[1..] == qs;
      ps, qs := [p] + ps, [p] + qs;
    }
  }

  /** All outcomes are the same to the last bit, the sync and its loss at each tag included, if and only if no
      whole tag is come to. */
  lemma SameIffTagless(input: Bytes, locked: bool)
    ensures Tagless(input, locked) <==>
      forall ps, h, qs, g | Outcome(input, locked, ps, h) && Outcome(input, locked, qs, g) :: ps == qs && h == g
  {
    if Tagless(input, locked) {
      forall ps, h, qs, g | Outcome(input, locked, ps, h) && Outcome(input, locked, qs, g)
        ensures ps == qs && h == g
      {
        CuttingIrrelevant(input, locked, ps, h, qs, g);
      }
    } else {
      var ps, h, qs, g := TaggedOutcomes(input, locked);
    }
  }

  lemma {:induction false} TaglessIsFree(input: Bytes, locked: bool)
    requires Tagless(input, locked)
    ensures CutFree(input, locked)
    decreases |input|
  {
    if input != [] {
      var c := Decide(input, locked);
      hide Decide;
      match c
      case Frame(len) => TaglessIsFree(input[len..], true);
      case Junk(lost) => TaglessIsFree(input[1..], locked && !lost);
      case _ =>
    }
  }

  /** A stream without the triple "ID3" is free. */
  lemma NoTagIsFree(input: Bytes, locked: bool)
    requires NoTag(input)
    ensures CutFree(input, locked)
  {
    NoTagIsTagless(input, locked);
    TaglessIsFree(input, locked);
  }
}
