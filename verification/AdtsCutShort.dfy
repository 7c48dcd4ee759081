/** src/adts_scan.c: a stream of two frames with a tag between them, which gives a fresh scanner both frames
    in one feed and only the first in three. */
module AdtsCutShort {
  import opened Prelude
  import opened AdtsStream
  import opened AdtsCutFree
  import opened AdtsCuts

  // A frame of eight bytes, and a tag of eleven.
  const FRAME: Bytes := [0xFF, 0xF1, 0x50, 0x40, 1, 0, 0, 0]
  const TAG: Bytes := [0x49, 0x44, 0x33, 4, 0, 0, 0, 0, 0, 1, 0]

  // The stream, and the two cuttings: the second ends a feed with the header of the tag, and the next with
  // the tag.
  const STREAM := FRAME + TAG + FRAME
  const WHOLE := [STREAM]
  const CUT := [FRAME + TAG[..10], TAG[10..], FRAME]

  lemma SameStream()
    ensures Flatten(WHOLE) == STREAM && Flatten(CUT) == STREAM
  {
    FlattenThree(STREAM, [], []);
    FlattenThree(FRAME + TAG[..10], TAG[10..], FRAME);
    assert TAG[..10] + TAG[10..] == TAG;
  }

  lemma FlattenThree(a: Bytes, b: Bytes, c: Bytes)
    ensures Flatten([a]) == a && Flatten([a, b, c]) == a + b + c
  {
    assert [a, b, c][1..] == [b, c] && [b, c][1..] == [c] && [a][1..] == [] && [c][1..] == [];
    assert Flatten([c]) == c + [] == c && Flatten([a]) == a + [] == a;
    assert Flatten([b, c]) == b + c;
    assert a + (b + c) == a + b + c;
  }

  // What is decided at each point, whatever else may be in view.
  lemma FrameHere(view: Bytes, locked: bool)
    requires FRAME <= view
    ensures locked ==> Decide(view, locked) == Frame(8)
    ensures FRAME + TAG[..10] <= view ==> Decide(view, locked) == Frame(8)
    ensures view == FRAME && !locked ==> Decide(view, locked) == Wait
  {
    assert forall k | 0 <= k < 8 :: view[k] == FRAME[k];
    assert AdtsLen(view) == 8;
    if FRAME + TAG[..10] <= view {
      assert forall k | 0 <= k < 10 :: view[8..][k] == (FRAME + TAG[..10])[8 + k] == TAG[k];
      TagHere(view[8..], false);
    }
  }

  lemma TagHere(view: Bytes, locked: bool)
    requires |view| >= 10 && forall k | 0 <= k < 10 :: view[k] == TAG[k]
    ensures Decide(view, locked) == Tag(11) && Id3Len(view) == 11
  {
    assert view[6..10] == [0, 0, 0, 1];
  }

  // The turns of drain on the stream.
  lemma FirstTurn(view: Bytes)
    requires FRAME + TAG[..10] <= view
    ensures var h := Held(view, 0, false); Drain(h) == Glue(Done([Frame(8)], [FRAME], FRESH), Drain(Held(view[8..], 0, true)))
  {
    FrameHere(view, false);
    assert view[..8] == FRAME;
    hide Decide;
    DrainTurns(Held(view, 0, false));
    hide Drain;
  }

  lemma TagTurn(view: Bytes)
    requires |view| >= 11 && forall k | 0 <= k < 10 :: view[k] == TAG[k]
    ensures Drain(Held(view, 0, true)) == Glue(Done([Tag(11)], [], FRESH), Drain(Held(view[11..], 0, true)))
  {
    TagHere(view, true);
    hide Decide;
    DrainTurns(Held(view, 0, true));
    hide Drain;
  }

  lemma TagOutruns()
    ensures Drain(Held(TAG[..10], 0, true)) == Done([Tag(11)], [], Held([], 1, true))
  {
    TagHere(TAG[..10], true);
    hide Decide;
    DrainTurns(Held(TAG[..10], 0, true));
    NothingMore(Held([], 1, true));
  }

  lemma LastFrame()
    ensures Drain(Held(FRAME, 0, true)) == Done([Frame(8)], [FRAME], Held([], 0, true))
    ensures Drain(Held(FRAME, 0, false)) == Nothing(Held(FRAME, 0, false))
  {
    FrameHere(FRAME, true);
    FrameHere(FRAME, false);
    assert FRAME[..8] == FRAME && FRAME[8..] == [];
    hide Decide;
    DrainTurns(Held(FRAME, 0, true));
    NothingMore(Held([], 0, true));
  }

  lemma StreamDrained()
    ensures Drain(Held(STREAM, 0, false)).frames == [FRAME, FRAME] && |STREAM| == 27
  {
    StreamSlices();
    LastFrame();
    hide Drain;
    FirstTurn(STREAM);
    TagTurn(TAG + FRAME);
  }

  lemma StreamSlices()
    ensures STREAM == FRAME + TAG[..10] + (TAG[10..] + FRAME)
    ensures STREAM[..8] == FRAME && STREAM[8..] == TAG + FRAME
    ensures (TAG + FRAME)[..11] == TAG && (TAG + FRAME)[11..] == FRAME
  {
    assert TAG == TAG[..10] + TAG[10..];
  }

  lemma WholeGivesBoth()
    ensures Feeds(FRESH, WHOLE).frames == [FRAME, FRAME]
  {
    StreamDrained();
    FedAtOnce(STREAM);
  }

  // A feed that fits into the buffer of a fresh scanner is drained as it is.
  lemma FedAtOnce(data: Bytes)
    requires 0 < |data| <= SCAN_CAP
    ensures Feeds(FRESH, [data]) == Drain(Held(data, 0, false))
  {
    assert [] + data == data;
    TakesOne(FRESH, data);
    TakesAsFeeds(FRESH, [data]);
    hide Drain, Feeds, Takes, Legal;
  }

  // The three takes of the second cutting.
  lemma UpToHeader()
    ensures var a := FRAME + TAG[..10];
      |a| == 18 && Take(FRESH, a).h == Held([], 1, true) && Take(FRESH, a).frames == [FRAME]
  {
    hide Drain, Decide;
    var a := FRAME + TAG[..10];
    assert a[8..] == TAG[..10] && [] + a == a;
    FirstTurn(a);
    TagOutruns();
  }

  lemma EndOfTag()
    ensures |TAG[10..]| == 1 && Take(Held([], 1, true), TAG[10..]) == Nothing(FRESH)
  {
    hide Drain;
  }

  lemma FrameAlone()
    ensures Take(FRESH, FRAME).frames == []
  {
    hide Drain;
    assert [] + FRAME == FRAME;
    LastFrame();
  }

  lemma CutGivesOne()
    ensures Feeds(FRESH, CUT).frames == [FRAME]
  {
    hide Drain, Feeds, Takes, Legal, Take, Decide;
    UpToHeader();
    EndOfTag();
    FrameAlone();
    ThreeTakes(FRAME + TAG[..10], Held([], 1, true), TAG[10..], FRAME);
  }

  lemma ThreeTakes(a: Bytes, held: Held, b: Bytes, c: Bytes)
    requires 0 < |a| <= Room(FRESH) && Take(FRESH, a).h == held
    requires 0 < |b| <= Room(held) && Take(held, b) == Nothing(FRESH) && 0 < |c| <= Room(FRESH)
    ensures Feeds(FRESH, [a, b, c]).frames == Take(FRESH, a).frames + Take(FRESH, c).frames
  {
    hide Drain, Feeds, Takes, Legal, Take, Room, Decide;
    TakesOne(FRESH, c);
    TakesCons(held, b, [c]);
    TakesCons(FRESH, a, [b] + [c]);
    assert [a] + ([b] + [c]) == [a, b, c];
    TakesAsFeeds(FRESH, [a, b, c]);
    GlueAssociates(Nothing(FRESH), Take(FRESH, c), Take(FRESH, c));
    ThreeGlued(Take(FRESH, a), Take(held, b), Take(FRESH, c));
  }

  lemma ThreeGlued(a: Done, b: Done, c: Done)
    requires b.frames == []
    ensures Glue(a, Glue(b, c)).frames == a.frames + c.frames
  {}

  /** The cutting of this stream matters: one feed gives both frames, three give the first alone. */
  lemma CuttingMatters()
    ensures Flatten(WHOLE) == Flatten(CUT) == STREAM
    ensures Feeds(FRESH, WHOLE).frames == [FRAME, FRAME] && Feeds(FRESH, CUT).frames == [FRAME]
    ensures !Unmoved(STREAM, START) && !CutFree(STREAM, false)
  {
    SameStream();
    WholeGivesBoth();
    CutGivesOne();
    CuttingIrrelevantIff(STREAM);
    assert !Agree(Feeds(FRESH, WHOLE), Feeds(FRESH, CUT));
    hide *;
    if CutFree(STREAM, false) { FreeFromStart(STREAM); }
  }

  lemma FreeFromStart(input: Bytes)
    requires CutFree(input, false)
    ensures Unmoved(input, START)
  {
    FreeIsUnmoved(input, START, false, false);
  }

  /** The two ways to explain it, one for each cutting. */
  lemma TwoOutcomes()
    ensures Outcome(STREAM, false, [Emitted(FRAME), Dropped(TAG, false), Emitted(FRAME)], Held([], 0, true))
    ensures Outcome(STREAM, false, [Emitted(FRAME), Dropped(TAG, true)], Held(FRAME, 0, false))
  {
    LastFrameOutcomes();
    FromFrame(false, [Emitted(FRAME)], Held([], 0, true));
    FromFrame(true, [], Held(FRAME, 0, false));
    assert [Dropped(TAG, true)] + [] == [Dropped(TAG, true)];
    hide *;
    assert [Emitted(FRAME)] + ([Dropped(TAG, false)] + [Emitted(FRAME)]) ==
      [Emitted(FRAME), Dropped(TAG, false), Emitted(FRAME)];
    assert [Emitted(FRAME)] + ([Dropped(TAG, true)] + []) == [Emitted(FRAME), Dropped(TAG, true)];
  }

  lemma LastFrameOutcomes()
    ensures Outcome(FRAME, true, [Emitted(FRAME)], Held([], 0, true))
    ensures Outcome(FRAME, false, [], Held(FRAME, 0, false))
  {
    FrameHere(FRAME, true);
    FrameHere(FRAME, false);
    assert FRAME[8..] == [] && FRAME[..8] == FRAME;
    hide Decide;
    assert Outcome([], true, [], Held([], 0, true));
    OutcomeCons(FRAME, true, Emitted(FRAME), [], Held([], 0, true));
    assert [Emitted(FRAME)] + [] == [Emitted(FRAME)];
  }

  // What follows the tag, with the tag and the first frame before it.
  lemma FromFrame(lost: bool, ps: seq<Piece>, h: Held)
    requires Outcome(FRAME, !lost, ps, h)
    ensures Outcome(STREAM, false, [Emitted(FRAME)] + ([Dropped(TAG, lost)] + ps), h)
  {
    StreamSlices();
    FrameHere(STREAM, false);
    TagHere(TAG + FRAME, true);
    hide Decide, Outcome;
    OutcomeCons(TAG + FRAME, true, Dropped(TAG, lost), ps, h);
    OutcomeCons(STREAM, false, Emitted(FRAME), [Dropped(TAG, lost)] + ps, h);
  }
}
