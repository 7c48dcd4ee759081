/** src/hls.c: the worker that plays the segments of a media playlist as it is reloaded. Playlists,
    the outcome of every fetch, stop requests and clock readings are inputs; what the worker does with
    them is kept in a trace. */
module Hls {
  import opened Prelude

  const MAX_SEG_FAILS := 5
  const MAX_RELOAD_FAILS := 5
  const MAX_STALE_RELOADS := 2
  const STALL_TARGETS := 6.0
  const TARGET_MIN := 1.0
  const TARGET_MAX := 60.0
  const LIVE_EDGE_TARGETS := 3.0
  const LLONG_MAX := 0x7FFF_FFFF_FFFF_FFFF

  // ---- playlists ------------------------------------------------------------------------------------

  datatype Segment = Segment(seqNo: int, duration: real, discontinuity: bool, encrypted: bool, hasKey: bool)

  datatype Playlist = Playlist(segments: seq<Segment>, target: real, endlist: bool)

  // A media playlist with something to play; its numbers are in the range of long long.
  ghost predicate Playable(pl: Playlist) {
    pl.segments != [] && forall k | 0 <= k < |pl.segments| :: pl.segments[k].seqNo <= 0x7FFF_FFFF_FFFF_FFFF
  }

  // It holds a segment after whose number there is none.
  ghost predicate AtTheTop(pl: Playlist) {
    exists k :: 0 <= k < |pl.segments| && pl.segments[k].seqNo == 0x7FFF_FFFF_FFFF_FFFF
  }

  function Span(segs: seq<Segment>, i: nat): real
    requires i <= |segs|
    decreases |segs| - i
  {
    if i == |segs| then 0.0 else segs[i].duration + Span(segs, i + 1)
  }

  // Where to start in a playlist: the last place, or the first segment, from which what follows lasts at
  // least three target durations (section 6.3.3 of RFC 8216).
  ghost predicate StartsAt(pl: Playlist, i: nat) {
    && i < |pl.segments|
    && if pl.endlist then i == 0
       else
         && (i > 0 ==> Span(pl.segments, i) >= 3.0 * pl.target)
         && forall k | i < k < |pl.segments| :: Span(pl.segments, k) < 3.0 * pl.target
  }

  ghost predicate StartNumber(pl: Playlist, seqNo: int) {
    exists i: nat :: StartsAt(pl, i) && pl.segments[i].seqNo == seqNo
  }

  function StartFrom(pl: Playlist, i: nat): (j: nat)
    requires i < |pl.segments|
    ensures j <= i
  {
    if i == 0 || Span(pl.segments, i) >= LIVE_EDGE_TARGETS * pl.target then i else StartFrom(pl, i - 1)
  }

  // The same place, counted back from the end.
  function StartIndex(pl: Playlist): (i: nat)
    requires pl.segments != []
    ensures i < |pl.segments|
  {
    if pl.endlist then 0 else StartFrom(pl, |pl.segments| - 1)
  }

  lemma {:induction false} StartFromIs(pl: Playlist, i: nat)
    requires i < |pl.segments| && !pl.endlist
    requires forall k | i < k < |pl.segments| :: Span(pl.segments, k) < LIVE_EDGE_TARGETS * pl.target
    ensures StartsAt(pl, StartFrom(pl, i))
  {
    if i > 0 && Span(pl.segments, i) < LIVE_EDGE_TARGETS * pl.target { StartFromIs(pl, i - 1); }
  }

  lemma StartIndexIs(pl: Playlist)
    requires pl.segments != []
    ensures StartsAt(pl, StartIndex(pl))
  {
    if !pl.endlist { StartFromIs(pl, |pl.segments| - 1); }
  }

  lemma OneStart(pl: Playlist, i: nat, j: nat)
    requires StartsAt(pl, i) && StartsAt(pl, j)
    ensures i == j
  {
  }

  /** live_start_index finds that one place. */
  method LiveStartIndex(pl: Playlist) returns (i: nat)
    requires pl.segments != []
    ensures StartsAt(pl, i) && i == StartIndex(pl)
  {
    StartIndexIs(pl);
    if pl.endlist { return 0; }
    var back := 0.0;
    i := |pl.segments| - 1;
    while i > 0
      invariant i < |pl.segments| && back == Span(pl.segments, i + 1)
      invariant forall k | i < k < |pl.segments| :: Span(pl.segments, k) < LIVE_EDGE_TARGETS * pl.target
    {
      back := back + pl.segments[i].duration;
      if back >= LIVE_EDGE_TARGETS * pl.target { break; }
      i := i - 1;
    }
    OneStart(pl, i, StartIndex(pl));
  }

  // clamp_target, on a target that is a number
  function ClampTarget(target: real): (r: real)
    ensures if target < 1.0 then r == 1.0 else if target > 60.0 then r == 60.0 else r == target
  {
    if target < TARGET_MIN then TARGET_MIN else if target > TARGET_MAX then TARGET_MAX else target
  }

  // ---- the trace --------------------------------------------------------------------------------------

  datatype Event =
    | Attempted(seqNo: int)       // play_segment begins
    | Flagged(seqNo: int)         // a discontinuity tag, on a segment played or stepped over
    | WindowSkipped(to: int)      // fell behind the live window
    | Resynced(to: int)           // the playlist stopped advancing
    | DemuxersReset
    | Fed(seqNo: int)             // a segment's bytes go into a demuxer

  // Something has broken the stream since the demuxers were last reset.
  function Owed(t: seq<Event>): bool {
    if t == [] then false
    else
      match t[|t| - 1]
      case Flagged(_) => true
      case WindowSkipped(_) => true
      case Resynced(_) => true
      case DemuxersReset => false
      case _ => Owed(t[..|t| - 1])
  }

  // The last number attempted since the last resync.
  function LastAttempt(t: seq<Event>): Option<int> {
    if t == [] then None
    else
      match t[|t| - 1]
      case Attempted(n) => Some(n)
      case Resynced(_) => None
      case _ => LastAttempt(t[..|t| - 1])
  }

  // What the worker keeps true of its trace, event by event.
  predicate Proper(t: seq<Event>) {
    t == [] ||
    (&& Proper(t[..|t| - 1])
     && (t[|t| - 1].Fed? ==> !Owed(t[..|t| - 1]))
     && (t[|t| - 1].Attempted? ==>
           var last := LastAttempt(t[..|t| - 1]); last.Some? ==> last.value < t[|t| - 1].seqNo))
  }

  lemma Append(t: seq<Event>, e: Event)
    ensures Proper(t + [e]) <==>
      && Proper(t) && (e.Fed? ==> !Owed(t))
      && (e.Attempted? ==> LastAttempt(t).Some? ==> LastAttempt(t).value < e.seqNo)
    ensures Owed(t + [e]) ==
      if e.Flagged? || e.WindowSkipped? || e.Resynced? then true else if e.DemuxersReset? then false else Owed(t)
    ensures LastAttempt(t + [e]) ==
      if e.Attempted? then Some(e.seqNo) else if e.Resynced? then None else LastAttempt(t)
  {
    assert (t + [e])[..|t|] == t;
  }

  predicate Breaks(e: Event) {
    e.Flagged? || e.WindowSkipped? || e.Resynced?
  }

  lemma {:induction false} ProperPrefix(t: seq<Event>, j: nat)
    requires Proper(t) && j <= |t|
    ensures Proper(t[..j])
  {
    if j < |t| {
      assert t[..|t| - 1][..j] == t[..j];
      ProperPrefix(t[..|t| - 1], j);
    } else {
      assert t[..j] == t;
    }
  }

  // A break without a reset after it is still owed.
  lemma {:induction false} StillOwed(t: seq<Event>, k: nat)
    requires k < |t| && Breaks(t[k]) && forall m | k < m < |t| :: !t[m].DemuxersReset?
    ensures Owed(t)
  {
    if k < |t| - 1 {
      var init := t[..|t| - 1];
      assert forall m | k < m < |init| :: init[m] == t[m];
      StillOwed(init, k);
    }
  }

  /** Whenever a discontinuity tag, a window skip or a resync comes before a feed, the demuxers are reset in
      between. */
  lemma ResetBeforeFeed(t: seq<Event>, k: nat, j: nat)
    requires Proper(t) && k < j < |t| && Breaks(t[k]) && t[j].Fed?
    ensures exists m :: k < m < j && t[m].DemuxersReset?
  {
    ProperPrefix(t, j + 1);
    assert t[..j + 1][..j] == t[..j];
    if forall m | k < m < j :: !t[m].DemuxersReset? {
      assert forall m | k < m < j :: t[..j][m] == t[m];
      StillOwed(t[..j], k);
      assert false;
    }
  }

  lemma {:induction false} AttemptRemembered(t: seq<Event>, i: nat)
    requires Proper(t) && i < |t| && t[i].Attempted? && forall m | i < m < |t| :: !t[m].Resynced?
    ensures LastAttempt(t).Some? && LastAttempt(t).value >= t[i].seqNo
  {
    if i < |t| - 1 {
      var init := t[..|t| - 1];
      assert forall m | i < m < |init| :: init[m] == t[m];
      AttemptRemembered(init, i);
    }
  }

  /** The numbers of the segments attempted strictly increase, except across a resync. */
  lemma AttemptsIncrease(t: seq<Event>, i: nat, j: nat)
    requires Proper(t) && i < j < |t| && t[i].Attempted? && t[j].Attempted?
    requires forall m | i < m < j :: !t[m].Resynced?
    ensures t[i].seqNo < t[j].seqNo
  {
    ProperPrefix(t, j + 1);
    ProperPrefix(t, j);
    assert t[..j + 1][..j] == t[..j];
    assert forall m | i < m < j :: t[..j][m] == t[m];
    AttemptRemembered(t[..j], i);
  }

  // ---- how long nothing may play ---------------------------------------------------------------------------

  // Six target durations in milliseconds, rounded down; half of one; and a whole one.
  function StallLimit(target: real): (ms: int)
    ensures ms as real <= 6000.0 * target < ms as real + 1.0
  {
    (STALL_TARGETS * target * 1000.0).Floor
  }

  function HalfTarget(target: real): (ms: int)
    ensures ms as real <= 500.0 * target < ms as real + 1.0
  {
    (target * 500.0).Floor
  }

  function FullTarget(target: real): (ms: int)
    ensures ms as real <= 1000.0 * target < ms as real + 1.0
  {
    (target * 1000.0).Floor
  }

  /** Thirteen half targets outlast the limit of six targets, however the milliseconds are rounded. */
  lemma ThirteenHalves(target: real)
    requires TARGET_MIN <= target
    ensures 13 * HalfTarget(target) > StallLimit(target) && 0 < HalfTarget(target) <= FullTarget(target)
  {
    assert HalfTarget(target) as real > target * 500.0 - 1.0;
    assert StallLimit(target) as real <= target * 6000.0;
  }

  // The least that so many quiet passes take.
  function Quiet(passes: nat, target: real): (r: int)
    requires TARGET_MIN <= target
    ensures r >= 0
  {
    passes * HalfTarget(target)
  }

  lemma QuietGrows(passes: nat, target: real)
    requires TARGET_MIN <= target
    ensures Quiet(passes + 1, target) == Quiet(passes, target) + HalfTarget(target)
    ensures Quiet(0, target) == 0 && Quiet(1, target) == HalfTarget(target)
  {}

  /** The stall check leaves no room for a thirteenth quiet pass to be followed by another. */
  lemma NotYetThirteen(passes: nat, target: real, silence: int)
    requires TARGET_MIN <= target && Quiet(passes, target) <= silence <= StallLimit(target)
    ensures passes < 13
  {
    ThirteenHalves(target);
    var half := HalfTarget(target);
    hide HalfTarget, StallLimit;
    assert passes * half < 13 * half;
  }

  // ---- the worker --------------------------------------------------------------------------------------------

  // How a segment's fetch, decryption and demuxing go: not fetched, not decrypted, not demuxed, or the
  // output closed; stop is set when that is because a stop was requested.
  datatype Outcome = NotFetched(stop: bool) | NotDecrypted | NotDemuxed | SinkClosed | Played

  // What a pass meets: a stop request before a segment, and the outcome of each attempt.
  datatype Meeting = Meeting(stopBefore: bool, outcome: Outcome)

  // What time a pass takes, in milliseconds: before it starts, until a segment has been played, and from
  // then until it checks for a stall.
  datatype Clock = Clock(idle: nat, playing: nat, checking: nat)

  // A pass over a playlist: what it meets, whether a stop is seen after the window and after the wait, and
  // whether a new playlist arrives then.
  datatype Round = Round(pl: Playlist, meet: seq<Meeting>, clock: Clock, stopSeen: bool, stopNapping: bool, reloaded: bool)

  ghost predicate RoundOk(r: Round) {
    Playable(r.pl) && |r.meet| == |r.pl.segments|
  }

  // Segment k counts as new to a worker that wants the numbers from a given one on.
  predicate New(segs: seq<Segment>, k: nat, from: int)
    requires k < |segs|
  {
    segs[k].seqNo >= from && forall j | 0 <= j < k :: segs[j].seqNo < segs[k].seqNo
  }

  function NewCount(segs: seq<Segment>, n: nat, from: int): nat
    requires n <= |segs|
  {
    if n == 0 then 0 else NewCount(segs, n - 1, from) + if New(segs, n - 1, from) then 1 else 0
  }

  // A new segment has been attempted, and the discontinuity of any segment is on record.
  ghost predicate Dealt(was: seq<Event>, t: seq<Event>, segs: seq<Segment>, k: nat, from: int) {
    && k < |segs| && |was| <= |t|
    && (New(segs, k, from) ==> Added(|was|, t, Attempted(segs[k].seqNo)))
    && (segs[k].discontinuity ==> Added(|was|, t, Flagged(segs[k].seqNo)))
  }

  ghost predicate Added(from: nat, t: seq<Event>, e: Event) {
    exists j: nat :: from <= j < |t| && t[j] == e
  }

  lemma LastAdded(start: seq<Event>, t: seq<Event>, u: seq<Event>)
    requires start <= t
    ensures |u| == |t| + 1 ==> Added(|start|, u, u[|t|])
  {}

  lemma AddedLater(from: nat, at: nat, t: seq<Event>, e: Event)
    requires from <= at
    ensures Added(at, t, e) ==> Added(from, t, e)
  {}

  lemma AddedStays(from: nat, at: nat, t: seq<Event>, u: seq<Event>, e: Event)
    requires t <= u && from <= at && Added(at, t, e)
    ensures Added(from, u, e)
  {
    var j: nat :| at <= j < |t| && t[j] == e;
    assert u[j] == e;
  }

  lemma StillDealt(start: seq<Event>, t: seq<Event>, u: seq<Event>, segs: seq<Segment>, n: nat, from: int)
    requires start <= t <= u && n <= |segs|
    requires forall k | 0 <= k < n :: Dealt(start, t, segs, k, from)
    ensures forall k | 0 <= k < n :: Dealt(start, u, segs, k, from)
  {
    hide New, Added;
    forall k: nat | k < n
      ensures Dealt(start, u, segs, k, from)
    {
      assert Dealt(start, t, segs, k, from);
      if New(segs, k, from) { AddedStays(|start|, |start|, t, u, Attempted(segs[k].seqNo)); }
      if segs[k].discontinuity { AddedStays(|start|, |start|, t, u, Flagged(segs[k].seqNo)); }
    }
  }

  // What is on record of one segment, on record of the whole.
  lemma NowDealt(start: seq<Event>, t: seq<Event>, u: seq<Event>, segs: seq<Segment>, k: nat, from: int)
    requires start <= t <= u && k < |segs|
    requires New(segs, k, from) ==> Added(|t|, u, Attempted(segs[k].seqNo))
    requires segs[k].discontinuity ==> Added(|t|, u, Flagged(segs[k].seqNo))
    ensures Dealt(start, u, segs, k, from)
  {
    hide New, Added;
    if New(segs, k, from) { AddedStays(|start|, |t|, u, u, Attempted(segs[k].seqNo)); }
    if segs[k].discontinuity { AddedStays(|start|, |t|, u, u, Flagged(segs[k].seqNo)); }
  }

  // Where a worker that began at from is after the first n segments.
  ghost predicate Reached(segs: seq<Segment>, n: nat, from: int, next: int) {
    && n <= |segs| && next >= from
    && (forall k | 0 <= k < n :: segs[k].seqNo < next)
    && (next == from || exists k :: 0 <= k < n && next == segs[k].seqNo + 1)
  }

  lemma NewAt(segs: seq<Segment>, n: nat, from: int, next: int)
    requires n < |segs| && Reached(segs, n, from, next)
    ensures New(segs, n, from) <==> segs[n].seqNo >= next
    ensures NewCount(segs, n + 1, from) == NewCount(segs, n, from) + if segs[n].seqNo >= next then 1 else 0
    ensures Reached(segs, n + 1, from, if segs[n].seqNo >= next then segs[n].seqNo + 1 else next)
  {}

  lemma AllReached(segs: seq<Segment>, from: int, next: int)
    requires Reached(segs, |segs|, from, next)
    ensures forall k | 0 <= k < |segs| :: segs[k].seqNo < next
  {}

  lemma {:induction false} NoneNew(segs: seq<Segment>, n: nat, from: int)
    requires n <= |segs| && forall k | 0 <= k < n :: segs[k].seqNo < from
    ensures NewCount(segs, n, from) == 0
  {
    if n > 0 {
      assert !New(segs, n - 1, from);
      NoneNew(segs, n - 1, from);
    }
  }

  // ---- where a pass leads --------------------------------------------------------------------------------------

  predicate Usable(seg: Segment) {
    seg.encrypted ==> seg.hasKey
  }

  predicate IsPlayed(seg: Segment, outcome: Outcome) {
    Usable(seg) && outcome.Played?
  }

  // The attempt is the last one: a stop, or nobody to play to.
  predicate IsLast(seg: Segment, outcome: Outcome) {
    Usable(seg) && (outcome == NotFetched(true) || outcome.SinkClosed?)
  }

  // How many new segments in a row have failed after the first n, with so many before them.
  function FailsInRow(segs: seq<Segment>, meet: seq<Meeting>, n: nat, from: int, before: nat): nat
    requires n <= |segs| == |meet|
  {
    if n == 0 then before
    else
      var fails := FailsInRow(segs, meet, n - 1, from, before);
      if !New(segs, n - 1, from) then fails else if IsPlayed(segs[n - 1], meet[n - 1].outcome) then 0 else fails + 1
  }

  // The stream is over at segment k: a stop before it; or it is new, and its number has none after it, or its
  // attempt is the last, or it is the sixth new one in a row to fail.
  predicate EndsAt(segs: seq<Segment>, meet: seq<Meeting>, k: nat, from: int, before: nat)
    requires k < |segs| == |meet|
  {
    || meet[k].stopBefore
    || (&& New(segs, k, from)
        && (|| segs[k].seqNo >= 0x7FFF_FFFF_FFFF_FFFF || IsLast(segs[k], meet[k].outcome)
            || (!IsPlayed(segs[k], meet[k].outcome) && FailsInRow(segs, meet, k, from, before) >= 5)))
  }

  ghost predicate WindowEnds(segs: seq<Segment>, meet: seq<Meeting>, from: int, before: nat)
    requires |segs| == |meet|
  {
    exists k :: 0 <= k < |segs| && EndsAt(segs, meet, k, from, before)
  }

  ghost predicate SomePlayed(segs: seq<Segment>, meet: seq<Meeting>, n: nat, from: int)
    requires n <= |segs| == |meet|
  {
    exists k :: 0 <= k < n && New(segs, k, from) && IsPlayed(segs[k], meet[k].outcome)
  }

  // The number wanted next after the first n segments.
  function NextAfter(segs: seq<Segment>, n: nat, from: int): int
    requires n <= |segs|
  {
    if n == 0 then from
    else
      var next := NextAfter(segs, n - 1, from);
      if segs[n - 1].seqNo >= next then segs[n - 1].seqNo + 1 else next
  }

  lemma StartsCourse(segs: seq<Segment>, meet: seq<Meeting>, from: int, before: nat)
    requires |segs| == |meet|
    ensures NextAfter(segs, 0, from) == from && FailsInRow(segs, meet, 0, from, before) == before
    ensures !SomePlayed(segs, meet, 0, from)
  {}

  // One turn over the window, in terms of the number wanted by then.
  lemma TurnOf(segs: seq<Segment>, meet: seq<Meeting>, i: nat, from: int, next: int, before: nat)
    requires i < |segs| == |meet| && Reached(segs, i, from, next) && next == NextAfter(segs, i, from)
    ensures var wanted, played := segs[i].seqNo >= next, IsPlayed(segs[i], meet[i].outcome);
      var fails := FailsInRow(segs, meet, i, from, before);
      && (EndsAt(segs, meet, i, from, before) <==>
          || meet[i].stopBefore
          || (wanted && (segs[i].seqNo >= 0x7FFF_FFFF_FFFF_FFFF || IsLast(segs[i], meet[i].outcome) || (!played && fails >= 5))))
      && NextAfter(segs, i + 1, from) == (if wanted then segs[i].seqNo + 1 else next)
      && FailsInRow(segs, meet, i + 1, from, before) == (if !wanted then fails else if played then 0 else fails + 1)
      && (SomePlayed(segs, meet, i + 1, from) <==> SomePlayed(segs, meet, i, from) || (wanted && played))
      && (played ==> meet[i].outcome.Played?)
  {
    NewAt(segs, i, from, next);
    hide New, IsLast, Reached, Usable;
  }

  lemma EndsNow(segs: seq<Segment>, meet: seq<Meeting>, i: nat, from: int, before: nat)
    requires i < |segs| == |meet| && EndsAt(segs, meet, i, from, before)
    ensures WindowEnds(segs, meet, from, before)
  {}

  lemma NeverEnds(segs: seq<Segment>, meet: seq<Meeting>, from: int, before: nat)
    requires |segs| == |meet| && forall k | 0 <= k < |segs| :: !EndsAt(segs, meet, k, from, before)
    ensures !WindowEnds(segs, meet, from, before)
  {}

  // A worker between two passes, but for its counters and its trace.
  datatype Course = Course(nextSeq: int, haveStart: bool, segFails: nat, reloadFails: nat, staleReloads: nat,
                           lastEdge: int, lastProgress: int, now: int)

  // The first number wanted of a playlist.
  function WindowFrom(c: Course, pl: Playlist): int
    requires pl.segments != []
  {
    if !c.haveStart then pl.segments[StartIndex(pl)].seqNo
    else if c.nextSeq < pl.segments[0].seqNo then pl.segments[0].seqNo
    else c.nextSeq
  }

  // The check for a stall comes so long after the start.
  function CheckedAt(c: Course, clock: Clock): int {
    c.now + clock.idle + clock.playing + clock.checking
  }

  // The last time a segment was played, as that check sees it.
  ghost function ProgressAt(c: Course, r: Round): int
    requires RoundOk(r)
  {
    if SomePlayed(r.pl.segments, r.meet, |r.meet|, WindowFrom(c, r.pl)) then c.now + r.clock.idle + r.clock.playing
    else c.lastProgress
  }

  /** What ends the stream in a pass: the window, a stop, the end of the playlist, or a stall. */
  ghost predicate PassEnds(c: Course, r: Round)
    requires RoundOk(r)
  {
    || WindowEnds(r.pl.segments, r.meet, WindowFrom(c, r.pl), c.segFails)
    || r.stopSeen || r.pl.endlist || r.stopNapping
    || CheckedAt(c, r.clock) - ProgressAt(c, r) > StallLimit(ClampTarget(r.pl.target))
  }

  function Later(started: int, check: int, wait: int): int {
    if check - started < wait then started + wait else check
  }

  ghost function AfterPass(c: Course, r: Round): Course
    requires RoundOk(r)
  {
    var segs, from, edge := r.pl.segments, WindowFrom(c, r.pl), r.pl.segments[|r.pl.segments| - 1].seqNo;
    var still := NewCount(segs, |segs|, from) == 0 && edge == c.lastEdge;
    var resync := still && c.staleReloads >= 2;
    var next := if resync then segs[StartIndex(r.pl)].seqNo else NextAfter(segs, |segs|, from);
    var target := ClampTarget(r.pl.target);
    var wait := if next != c.nextSeq then FullTarget(target) else HalfTarget(target);
    Course(next, true, FailsInRow(segs, r.meet, |segs|, from, c.segFails), c.reloadFails,
           if still && !resync then c.staleReloads + 1 else 0, edge, ProgressAt(c, r),
           Later(c.now + r.clock.idle, CheckedAt(c, r.clock), wait))
  }

  lemma AfterPassIs(c: Course, r: Round, d: Course, considered: nat)
    requires RoundOk(r)
    requires var segs, from, edge := r.pl.segments, WindowFrom(c, r.pl), r.pl.segments[|r.pl.segments| - 1].seqNo;
      && considered == NewCount(segs, |segs|, from) && d.segFails == FailsInRow(segs, r.meet, |segs|, from, c.segFails)
      && (if considered > 0 || edge != c.lastEdge then
            d.staleReloads == 0 && d.nextSeq == NextAfter(segs, |segs|, from)
          else if c.staleReloads < 2 then
            d.staleReloads == c.staleReloads + 1 && d.nextSeq == NextAfter(segs, |segs|, from)
          else d.staleReloads == 0 && d.nextSeq == segs[StartIndex(r.pl)].seqNo)
      && d.haveStart && d.lastEdge == edge && d.reloadFails == c.reloadFails && d.lastProgress == ProgressAt(c, r)
    requires var target := ClampTarget(r.pl.target);
      d.now == Later(c.now + r.clock.idle, CheckedAt(c, r.clock),
                     if d.nextSeq != c.nextSeq then FullTarget(target) else HalfTarget(target))
    ensures d == AfterPass(c, r)
  {
    hide NewCount, FailsInRow, NextAfter, StartIndex, ProgressAt, Later, CheckedAt, FullTarget, HalfTarget, ClampTarget, WindowFrom;
  }

  // A pass and the reload after it: None once the stream is over.
  ghost function AfterRound(c: Course, r: Round): Option<Course>
    requires RoundOk(r)
  {
    if PassEnds(c, r) then None
    else
      var fails := if r.reloaded then 0 else c.reloadFails + 1;
      if fails > 5 then None else Some(AfterPass(c, r).(reloadFails := fails))
  }

  // The first n rounds.
  ghost function AfterRounds(c: Course, rounds: seq<Round>, n: nat): Option<Course>
    requires n <= |rounds| && forall k | 0 <= k < |rounds| :: RoundOk(rounds[k])
  {
    if n == 0 then Some(c)
    else
      match AfterRounds(c, rounds, n - 1)
      case None => None
      case Some(c') => AfterRound(c', rounds[n - 1])
  }

  // The number of the last segment.
  function Edge(pl: Playlist): int {
    if pl.segments == [] then -1 else pl.segments[|pl.segments| - 1].seqNo
  }

  // A round of a live stream that goes well: its numbers rise, every segment can be played, nobody asks to
  // stop, the check for a stall comes within six seconds of the last segment, and a new playlist arrives.
  ghost predicate Healthy(r: Round) {
    && RoundOk(r) && !r.stopSeen && !r.stopNapping && !r.pl.endlist && r.reloaded && r.clock.checking <= 6000
    && (forall k | 0 <= k < |r.meet| :: !r.meet[k].stopBefore && IsPlayed(r.pl.segments[k], r.meet[k].outcome))
    && (forall j, k | 0 <= j < k < |r.meet| :: r.pl.segments[j].seqNo < r.pl.segments[k].seqNo)
    && Edge(r.pl) < 0x7FFF_FFFF_FFFF_FFFF
  }

  lemma {:induction false} NextAtMost(segs: seq<Segment>, n: nat, from: int, bound: int)
    requires n <= |segs| && from <= bound && forall k | 0 <= k < n :: segs[k].seqNo < bound
    ensures NextAfter(segs, n, from) <= bound
  {
    if n > 0 { NextAtMost(segs, n - 1, from, bound); }
  }

  // Such a round, with something new at its end, is not the last.
  lemma HealthyGoesOn(c: Course, r: Round)
    requires Healthy(r) && (c.haveStart ==> c.nextSeq <= Edge(r.pl))
    ensures !PassEnds(c, r)
    ensures AfterPass(c, r).haveStart && AfterPass(c, r).nextSeq == Edge(r.pl) + 1
  {
    var segs, last, from := r.pl.segments, |r.pl.segments| - 1, WindowFrom(c, r.pl);
    assert from <= Edge(r.pl) && New(segs, last, from);
    LastIsNew(segs, r.meet, from);
    assert forall k | 0 <= k < |segs| :: !EndsAt(segs, r.meet, k, from, c.segFails);
    NeverEnds(segs, r.meet, from, c.segFails);
    hide New, EndsAt, WindowEnds, SomePlayed, NextAfter, NewCount, WindowFrom, FailsInRow, StartIndex;
    SixSeconds(ClampTarget(r.pl.target));
    hide StallLimit, ClampTarget, FullTarget, HalfTarget;
  }

  lemma LastIsNew(segs: seq<Segment>, meet: seq<Meeting>, from: int)
    requires segs != [] && |segs| == |meet| && from <= segs[|segs| - 1].seqNo
    requires forall j | 0 <= j < |segs| - 1 :: segs[j].seqNo < segs[|segs| - 1].seqNo
    requires IsPlayed(segs[|segs| - 1], meet[|segs| - 1].outcome)
    ensures SomePlayed(segs, meet, |meet|, from) && NewCount(segs, |segs|, from) > 0
    ensures NextAfter(segs, |segs|, from) == segs[|segs| - 1].seqNo + 1
  {
    var last := |segs| - 1;
    assert New(segs, last, from);
    NextAtMost(segs, last, from, segs[last].seqNo);
  }

  lemma SixSeconds(target: real)
    requires TARGET_MIN <= target
    ensures StallLimit(target) >= 6000
  {}

  /** A live stream plays on: while every round goes well and each playlist ends beyond the one before, the
      worker plays to the end of each and goes on. */
  lemma {:induction false} LivePlaysOn(c: Course, rounds: seq<Round>, n: nat)
    requires n <= |rounds| && (forall k | 0 <= k < |rounds| :: RoundOk(rounds[k]) && Healthy(rounds[k]))
    requires forall k | 0 < k < |rounds| :: Edge(rounds[k - 1].pl) < Edge(rounds[k].pl)
    requires rounds != [] && c.haveStart ==> c.nextSeq <= Edge(rounds[0].pl)
    ensures AfterRounds(c, rounds, n).Some?
    ensures n > 0 ==> AfterRounds(c, rounds, n).value.haveStart && AfterRounds(c, rounds, n).value.nextSeq == Edge(rounds[n - 1].pl) + 1
  {
    hide PassEnds, AfterPass, RoundOk;
    if n > 0 {
      LivePlaysOn(c, rounds, n - 1);
      var d := AfterRounds(c, rounds, n - 1).value;
      HealthyGoesOn(d, rounds[n - 1]);
    }
  }

  lemma StartsRounds(c: Course, rounds: seq<Round>)
    requires forall k | 0 <= k < |rounds| :: RoundOk(rounds[k])
    ensures AfterRounds(c, rounds, 0) == Some(c) && Failures(rounds, 0, c.reloadFails) == c.reloadFails
  {}

  lemma SameTargetAt(rounds: seq<Round>, k: nat)
    requires k < |rounds|
    ensures SameTarget(rounds) ==> ClampTarget(rounds[k].pl.target) == ClampTarget(rounds[0].pl.target)
  {}

  lemma RoundStep(c: Course, rounds: seq<Round>, n: nat, d: Course)
    requires n < |rounds| && (forall k | 0 <= k < |rounds| :: RoundOk(rounds[k])) && AfterRounds(c, rounds, n) == Some(d)
    ensures AfterRounds(c, rounds, n + 1) == AfterRound(d, rounds[n])
    ensures Failures(rounds, n + 1, c.reloadFails) == if rounds[n].reloaded then 0 else Failures(rounds, n, c.reloadFails) + 1
  {
    hide AfterRound, RoundOk;
  }

  lemma {:induction false} OverForGood(c: Course, rounds: seq<Round>, m: nat, n: nat)
    requires m <= n <= |rounds| && (forall k | 0 <= k < |rounds| :: RoundOk(rounds[k])) && AfterRounds(c, rounds, m).None?
    ensures AfterRounds(c, rounds, n).None?
  {
    hide RoundOk, AfterRound;
    if m < n { OverForGood(c, rounds, m, n - 1); }
  }

  class Worker {
    var nextSeq: int
    var haveStart: bool
    var pendingDisc: bool
    var segFails: nat
    var reloadFails: nat
    var staleReloads: nat
    var lastEdge: int
    var done: nat
    var failed: nat
    var lastProgress: int
    var now: int

    // The number after a segment's did not fit: undefined in C, so nothing is promised from then on.
    var overflowed: bool

    ghost var trace: seq<Event>
    // Passes since a segment was last played or the target changed, and that target.
    ghost var quiet: nat
    ghost var quietTarget: real

    ghost predicate Valid()
      reads this
    {
      && Proper(trace) && Owed(trace) == pendingDisc
      && (LastAttempt(trace).Some? && !overflowed ==> LastAttempt(trace).value < nextSeq)
      && (!haveStart ==> trace == [])
    }

    ghost function View(): Course
      reads this
    {
      Course(nextSeq, haveStart, segFails, reloadFails, staleReloads, lastEdge, lastProgress, now)
    }

    // Every quiet pass has taken at least half a target.
    ghost predicate Timed()
      reads this
    {
      && TARGET_MIN <= quietTarget
      && now >= lastProgress + Quiet(quiet, quietTarget)
      && quiet <= 13
    }

    constructor (start: int)
      ensures Valid() && Timed() && !overflowed && trace == [] && quiet == 0
    {
      nextSeq, haveStart, pendingDisc, overflowed := -1, false, false, false;
      segFails, reloadFails, staleReloads, lastEdge := 0, 0, 0, -1;
      done, failed, lastProgress, now := 0, 0, start, start;
      trace, quiet, quietTarget := [], 0, TARGET_MIN;
      QuietGrows(0, TARGET_MIN);
    }

    // play_segment; 0 if the segment was played, -1 if only this one failed, -2 if that is the end.
    method PlaySegment(seg: Segment, outcome: Outcome) returns (r: int)
      requires Valid() && !overflowed && haveStart && nextSeq <= seg.seqNo
      modifies `pendingDisc, `trace
      ensures Proper(trace) && Owed(trace) == pendingDisc && LastAttempt(trace) == Some(seg.seqNo)
      ensures !pendingDisc
      ensures r == if IsPlayed(seg, outcome) then 0 else if IsLast(seg, outcome) then -2 else -1
      ensures old(trace) + [Attempted(seg.seqNo)] <= trace
      ensures seg.discontinuity ==> |old(trace)| + 1 < |trace| && trace[|old(trace)| + 1] == Flagged(seg.seqNo)
      ensures r == 0 ==> trace[|trace| - 1] == Fed(seg.seqNo)
    {
      hide Proper, Owed, LastAttempt;
      Append(trace, Attempted(seg.seqNo));
      trace := trace + [Attempted(seg.seqNo)];
      if seg.discontinuity {
        Append(trace, Flagged(seg.seqNo));
        trace := trace + [Flagged(seg.seqNo)];
      }
      if seg.discontinuity || pendingDisc {
        Append(trace, DemuxersReset);
        trace := trace + [DemuxersReset];
        pendingDisc := false;
      }
      if seg.encrypted && !seg.hasKey { return -1; }
      match outcome
      case NotFetched(stop) => return if stop then -2 else -1;
      case NotDecrypted => return -1;
      case _ =>
      Append(trace, Fed(seg.seqNo));
      trace := trace + [Fed(seg.seqNo)];
      r := match outcome case NotDemuxed => -1 case SinkClosed => -2 case _ => 0;
    }

    // play_window: every segment at or after nextSeq. considered is how many there were.
    method PlayWindow(pl: Playlist, meet: seq<Meeting>) returns (over: bool, considered: nat)
      requires Valid() && !overflowed && haveStart && Playable(pl) && |meet| == |pl.segments|
      modifies `nextSeq, `pendingDisc, `segFails, `done, `failed, `trace, `overflowed
      ensures Valid() && old(trace) <= trace
      ensures over <==> WindowEnds(pl.segments, meet, old(nextSeq), old(segFails))
      ensures !over ==> nextSeq == NextAfter(pl.segments, |pl.segments|, old(nextSeq))
      ensures !over ==> segFails == FailsInRow(pl.segments, meet, |meet|, old(nextSeq), old(segFails))
      ensures !over ==> (done != old(done) <==> SomePlayed(pl.segments, meet, |meet|, old(nextSeq)))
      ensures overflowed ==> over && AtTheTop(pl)
      ensures !over ==>
        forall k | 0 <= k < |pl.segments| && New(pl.segments, k, old(nextSeq)) :: pl.segments[k].seqNo < 0x7FFF_FFFF_FFFF_FFFF
      ensures !over ==> forall k | 0 <= k < |pl.segments| :: Dealt(old(trace), trace, pl.segments, k, old(nextSeq))
      ensures !over ==> considered == NewCount(pl.segments, |pl.segments|, old(nextSeq))
      ensures !over ==> done + failed == old(done) + old(failed) + considered
      ensures (forall k | 0 <= k < |meet| :: !meet[k].outcome.Played?) ==> done == old(done)
      ensures nextSeq >= old(nextSeq) && done >= old(done)
      ensures !over ==> segFails <= 5 || segFails <= old(segFails)
      ensures !over ==> forall k | 0 <= k < |pl.segments| :: pl.segments[k].seqNo < nextSeq
      ensures considered == 0 ==> nextSeq == old(nextSeq) && done == old(done)
    {
      hide *;
      considered, over := 0, false;
      StartsWindow();
      StartsCourse(pl.segments, meet, nextSeq, segFails);
      for i := 0 to |pl.segments|
        invariant Valid() && !overflowed && haveStart && old(trace) <= trace
        invariant forall k | 0 <= k < i && New(pl.segments, k, old(nextSeq)) :: pl.segments[k].seqNo < 0x7FFF_FFFF_FFFF_FFFF
        invariant nextSeq >= old(nextSeq) && done >= old(done)
        invariant segFails <= 5 || segFails <= old(segFails)
        invariant Reached(pl.segments, i, old(nextSeq), nextSeq)
        invariant forall k | 0 <= k < i :: Dealt(old(trace), trace, pl.segments, k, old(nextSeq))
        invariant considered == NewCount(pl.segments, i, old(nextSeq))
        invariant considered == 0 ==> nextSeq == old(nextSeq) && done == old(done)
        invariant done + failed == old(done) + old(failed) + considered
        invariant forall k | 0 <= k < i :: !EndsAt(pl.segments, meet, k, old(nextSeq), old(segFails))
        invariant nextSeq == NextAfter(pl.segments, i, old(nextSeq))
        invariant segFails == FailsInRow(pl.segments, meet, i, old(nextSeq), old(segFails))
        invariant done != old(done) <==> SomePlayed(pl.segments, meet, i, old(nextSeq))
        invariant (forall k | 0 <= k < |meet| :: !meet[k].outcome.Played?) ==> done == old(done)
      {
        ghost var was, next := trace, nextSeq;
        var wanted;
        TurnOf(pl.segments, meet, i, old(nextSeq), next, old(segFails));
        if meet[i].stopBefore {
          EndsNow(pl.segments, meet, i, old(nextSeq), old(segFails));
          return true, considered;
        }
        over, wanted := MeetSegment(pl.segments[i], meet[i].outcome);
        if wanted { considered := considered + 1; }
        if over {
          EndsNow(pl.segments, meet, i, old(nextSeq), old(segFails));
          if overflowed { TopAt(pl, i); }
          return;
        }
        NewAt(pl.segments, i, old(nextSeq), next);
        StillDealt(old(trace), was, trace, pl.segments, i, old(nextSeq));
        NowDealt(old(trace), was, trace, pl.segments, i, old(nextSeq));
      }
      AllReached(pl.segments, old(nextSeq), nextSeq);
      NeverEnds(pl.segments, meet, old(nextSeq), old(segFails));
    }

    lemma TopAt(pl: Playlist, k: nat)
      requires Playable(pl) && k < |pl.segments| && pl.segments[k].seqNo >= 0x7FFF_FFFF_FFFF_FFFF
      ensures AtTheTop(pl)
    {}

    lemma StartsWindow()
      ensures forall segs, from :: NewCount(segs, 0, from) == 0 && Reached(segs, 0, from, from)
    {}

    // One turn of play_window's loop; wanted says whether the segment was one to play.
    method MeetSegment(seg: Segment, outcome: Outcome) returns (over: bool, wanted: bool)
      requires Valid() && !overflowed && haveStart
      modifies `nextSeq, `pendingDisc, `segFails, `done, `failed, `trace, `overflowed
      ensures Valid() && old(trace) <= trace
      ensures wanted <==> seg.seqNo >= old(nextSeq)
      ensures overflowed <==> wanted && seg.seqNo >= 0x7FFF_FFFF_FFFF_FFFF
      ensures over <==> wanted && (|| seg.seqNo >= 0x7FFF_FFFF_FFFF_FFFF || IsLast(seg, outcome)
                                   || (!IsPlayed(seg, outcome) && old(segFails) >= 5))
      ensures nextSeq == if wanted && !overflowed then seg.seqNo + 1 else old(nextSeq)
      ensures wanted ==> Added(|old(trace)|, trace, Attempted(seg.seqNo))
      ensures seg.discontinuity ==> Added(|old(trace)|, trace, Flagged(seg.seqNo))
      ensures done == old(done) + if wanted && !overflowed && IsPlayed(seg, outcome) then 1 else 0
      ensures !over ==> done + failed == old(done) + old(failed) + (if wanted then 1 else 0)
      ensures !over ==>
        segFails == if !wanted then old(segFails) else if done > old(done) then 0 else old(segFails) + 1
      ensures !over ==> segFails <= 5 || segFails <= old(segFails)
    {
      hide Proper, Owed, LastAttempt;
      over, wanted := false, seg.seqNo >= nextSeq;
      if !wanted {
        if seg.discontinuity {
          Append(trace, Flagged(seg.seqNo));
          trace := trace + [Flagged(seg.seqNo)];
          assert trace[|old(trace)|] == Flagged(seg.seqNo);
          pendingDisc := true;
        }
      } else {
        var r := PlaySegment(seg, outcome);
        if seg.seqNo >= LLONG_MAX {
          overflowed := true;
        } else {
          nextSeq := seg.seqNo + 1;
        }
        assert trace[|old(trace)|] == Attempted(seg.seqNo);
        assert seg.discontinuity ==> trace[|old(trace)| + 1] == Flagged(seg.seqNo);
        if overflowed || r == -2 {
          over := true;
        } else if r != 0 {
          failed := failed + 1;
          segFails := segFails + 1;
          over := segFails > MAX_SEG_FAILS;
        } else {
          segFails := 0;
          done := done + 1;
        }
      }
    }

    // Where the next pass begins.
    method ChooseStart(pl: Playlist)
      requires Valid() && Playable(pl)
      modifies `nextSeq, `haveStart, `pendingDisc, `trace
      ensures Valid() && haveStart && old(trace) <= trace
      ensures if !old(haveStart) then trace == [] && StartNumber(pl, nextSeq)
              else if old(nextSeq) < pl.segments[0].seqNo then
                nextSeq == pl.segments[0].seqNo && trace == old(trace) + [WindowSkipped(nextSeq)]
              else nextSeq == old(nextSeq) && trace == old(trace)
      ensures nextSeq == WindowFrom(old(View()), pl)
    {
      if !haveStart {
        var i := LiveStartIndex(pl);
        nextSeq := pl.segments[i].seqNo;
        haveStart := true;
      } else if nextSeq < pl.segments[0].seqNo {
        nextSeq := pl.segments[0].seqNo;
        Append(trace, WindowSkipped(nextSeq));
        trace := trace + [WindowSkipped(nextSeq)];
        pendingDisc := true;
      }
    }

    // A playlist that offers nothing, and whose end no longer moves, is stuck after three passes: back to
    // its live edge.
    method NoticeStale(pl: Playlist, considered: nat)
      requires Valid() && haveStart && Playable(pl)
      modifies `nextSeq, `pendingDisc, `staleReloads, `lastEdge, `trace
      ensures Valid() && haveStart && old(trace) <= trace
      ensures lastEdge == pl.segments[|pl.segments| - 1].seqNo
      ensures if considered > 0 || lastEdge != old(lastEdge) then staleReloads == 0 && nextSeq == old(nextSeq)
              else if old(staleReloads) < 2 then
                staleReloads == old(staleReloads) + 1 && nextSeq == old(nextSeq)
              else staleReloads == 0 && trace == old(trace) + [Resynced(nextSeq)] && StartNumber(pl, nextSeq)
      ensures considered == 0 && lastEdge == old(lastEdge) && old(staleReloads) >= 2 ==>
        nextSeq == pl.segments[StartIndex(pl)].seqNo
    {
      hide StartsAt, Proper, Owed, LastAttempt;
      var edge := pl.segments[|pl.segments| - 1].seqNo;
      if considered > 0 || edge != lastEdge {
        staleReloads := 0;
      } else {
        staleReloads := staleReloads + 1;
        if staleReloads > MAX_STALE_RELOADS {
          var i := LiveStartIndex(pl);
          nextSeq := pl.segments[i].seqNo;
          Append(trace, Resynced(nextSeq));
          trace := trace + [Resynced(nextSeq)];
          pendingDisc := true;
          staleReloads := 0;
        }
      }
      lastEdge := edge;
    }

    // The end of a pass: whether the stream has stalled and, if not, the wait before the next reload.
    method KeepTime(target: real, played: bool, moved: bool, clock: Clock) returns (over: bool)
      requires Timed() && TARGET_MIN <= target
      modifies `lastProgress, `now, `quiet, `quietTarget
      ensures over <==>
        old(now) + clock.idle + clock.playing + clock.checking -
          (if played then old(now) + clock.idle + clock.playing else old(lastProgress)) > StallLimit(target)
      ensures lastProgress == if played then old(now) + clock.idle + clock.playing else old(lastProgress)
      ensures !over ==>
        now == Later(old(now) + clock.idle, old(now) + clock.idle + clock.playing + clock.checking,
                     if moved then FullTarget(target) else HalfTarget(target))
      ensures !over ==> now >= old(now) + clock.idle + if moved then FullTarget(target) else HalfTarget(target)
      ensures !over ==> Timed()
      ensures !over && !played ==>
        quietTarget == target && quiet == if old(quiet) == 0 || target == old(quietTarget) then old(quiet) + 1 else 1
    {
      hide HalfTarget, FullTarget, StallLimit, Quiet;
      ThirteenHalves(target);
      QuietGrows(quiet, target);
      QuietGrows(quiet, quietTarget);
      var started := now + clock.idle;
      var check := started + clock.playing + clock.checking;
      if played { lastProgress := started + clock.playing; }
      if check - lastProgress > StallLimit(target) { return true; }
      var wait := if moved then FullTarget(target) else HalfTarget(target);
      // nap, which is not cut short but by a stop
      now := if check - started < wait then started + wait else check;
      over := false;
      if played {
        quiet, quietTarget := 0, target;
      } else if quiet == 0 || target == quietTarget {
        NotYetThirteen(quiet, target, check - lastProgress);
        quiet, quietTarget := quiet + 1, target;
      } else {
        quiet, quietTarget := 1, target;
      }
    }

    // The end of a pass, once its window has been played from c on.
    method EndPass(r: Round, considered: nat, before: int, played: bool, ghost c: Course) returns (over: bool)
      requires Valid() && !overflowed && haveStart && Timed() && RoundOk(r) && c.nextSeq == before
      requires View() == c.(nextSeq := nextSeq, haveStart := true, segFails := segFails)
      requires var segs, from := r.pl.segments, WindowFrom(c, r.pl);
        && nextSeq == NextAfter(segs, |segs|, from) && segFails == FailsInRow(segs, r.meet, |segs|, from, c.segFails)
        && considered == NewCount(segs, |segs|, from) && (played <==> SomePlayed(segs, r.meet, |r.meet|, from))
      modifies `nextSeq, `pendingDisc, `staleReloads, `lastEdge, `trace, `lastProgress, `now, `quiet, `quietTarget
      ensures Valid() && old(trace) <= trace
      ensures over <==> r.stopNapping || CheckedAt(c, r.clock) - ProgressAt(c, r) > StallLimit(ClampTarget(r.pl.target))
      ensures !over ==> View() == AfterPass(c, r) && Timed()
      ensures considered == 0 && lastEdge == old(lastEdge) ==>
        if old(staleReloads) < 2 then
          staleReloads == old(staleReloads) + 1 && nextSeq == old(nextSeq)
        else staleReloads == 0 && StartNumber(r.pl, nextSeq) && Added(|old(trace)|, trace, Resynced(nextSeq))
      ensures lastEdge == r.pl.segments[|r.pl.segments| - 1].seqNo
      ensures !over && !played ==>
        quietTarget == ClampTarget(r.pl.target) &&
        quiet == if old(quiet) == 0 || ClampTarget(r.pl.target) == old(quietTarget) then old(quiet) + 1 else 1
    {
      hide Proper, Owed, LastAttempt, ClampTarget, Quiet, Added, StartNumber, New, NewCount, StallLimit;
      hide HalfTarget, FullTarget, StartsAt, StartIndex, FailsInRow, SomePlayed, NextAfter, Later, WindowFrom, AfterPass;
      ghost var was := trace;
      NoticeStale(r.pl, considered);
      LastAdded(was, was, trace);
      over := KeepTime(ClampTarget(r.pl.target), played, nextSeq != before, r.clock);
      over := over || r.stopNapping;
      if !over { AfterPassIs(c, r, View(), considered); }
    }

    /** One pass of the worker's loop over a playlist, up to its next reload: exactly when it is the last, and
        where it leads. Its trace stays proper; a stuck playlist is resynced to its live edge by the third pass;
        and a pass in which nothing is played, at the target of the passes before it, is over once there have
        been thirteen such passes in a row. */
    method Pass(r: Round) returns (over: bool)
      requires Valid() && !overflowed && Timed() && RoundOk(r)
      modifies this
      ensures over <==> PassEnds(old(View()), r)
      ensures !over ==> View() == AfterPass(old(View()), r)
      ensures overflowed ==> over && AtTheTop(r.pl)
      ensures Valid() && old(trace) <= trace && done >= old(done) && reloadFails == old(reloadFails)
      ensures !over ==> Timed() && haveStart && lastEdge == r.pl.segments[|r.pl.segments| - 1].seqNo
      ensures !over && Stuck(r.pl, old(haveStart), old(nextSeq), old(lastEdge)) ==>
        if old(staleReloads) < 2 then
          staleReloads == old(staleReloads) + 1 && nextSeq == old(nextSeq)
        else staleReloads == 0 && StartNumber(r.pl, nextSeq) && Added(|old(trace)|, trace, Resynced(nextSeq))
      ensures !over && done == old(done) ==>
        quietTarget == ClampTarget(r.pl.target) &&
        quiet == if old(quiet) == 0 || ClampTarget(r.pl.target) == old(quietTarget) then old(quiet) + 1 else 1
    {
      hide Proper, Owed, LastAttempt, ClampTarget, Quiet, Added, StartNumber, New, NewCount, Dealt, StallLimit;
      hide HalfTarget, FullTarget, AtTheTop, StartsAt, StartIndex, WindowEnds, FailsInRow, SomePlayed, NextAfter, WindowFrom;
      hide AfterPass, CheckedAt, ProgressAt;
      var before, doneBefore, considered := nextSeq, done, 0;
      ChooseStart(r.pl);
      if Stuck(r.pl, old(haveStart), old(nextSeq), old(lastEdge)) { NoneNew(r.pl.segments, |r.pl.segments|, nextSeq); }
      over, considered := PlayWindow(r.pl, r.meet);
      if over || r.stopSeen || r.pl.endlist { return true; }
      ghost var was := trace;
      over := EndPass(r, considered, before, done != doneBefore, old(View()));
      AddedLater(|old(trace)|, |was|, trace, Resynced(nextSeq));
    }

    // What follows a pass: a new playlist, or one more failed reload; more than five in a row are the end.
    method Reload(arrived: bool) returns (over: bool)
      modifies `reloadFails
      ensures reloadFails == (if arrived then 0 else old(reloadFails) + 1)
      ensures over <==> reloadFails > 5
    {
      over := false;
      if arrived {
        reloadFails := 0;
      } else {
        reloadFails := reloadFails + 1;
        over := reloadFails > MAX_RELOAD_FAILS;
      }
    }

    // A pass and the reload after it.
    method Turn(r: Round) returns (over: bool)
      requires Valid() && !overflowed && Timed() && RoundOk(r)
      modifies this
      ensures over <==> AfterRound(old(View()), r).None?
      ensures !over ==> AfterRound(old(View()), r) == Some(View()) && Timed()
      ensures overflowed ==> over && AtTheTop(r.pl)
      ensures Valid() && old(trace) <= trace && done >= old(done)
      ensures !over ==> reloadFails == (if r.reloaded then 0 else old(reloadFails) + 1) && reloadFails <= 5
      ensures !over && done == old(done) ==>
        quietTarget == ClampTarget(r.pl.target) &&
        quiet == if old(quiet) == 0 || ClampTarget(r.pl.target) == old(quietTarget) then old(quiet) + 1 else 1
    {
      hide Proper, Owed, LastAttempt, RoundOk, ClampTarget, AtTheTop, PassEnds, AfterPass, Quiet;
      over := Pass(r);
      if !over { over := Reload(r.reloaded); }
    }

    /** The worker's loop, over the rounds it meets. While no segment is played and the clamped target stays
        the same, it makes at most fourteen passes before it ends; and it makes no pass after six reloads in a
        row have failed, however much of the last playlist it still plays. */
    method Play(rounds: seq<Round>) returns (passes: nat, over: bool)
      requires Valid() && !overflowed && Timed() && quiet == 0
      requires forall k | 0 <= k < |rounds| :: RoundOk(rounds[k])
      modifies this
      ensures Valid() && old(trace) <= trace && done >= old(done)
      ensures passes <= |rounds| && (!over ==> passes == |rounds|)
      ensures over <==> AfterRounds(old(View()), rounds, |rounds|).None?
      ensures over ==>
        passes > 0 && AfterRounds(old(View()), rounds, passes - 1).Some? && AfterRounds(old(View()), rounds, passes).None?
      ensures !over ==> AfterRounds(old(View()), rounds, |rounds|) == Some(View())
      ensures overflowed ==> passes > 0 && AtTheTop(rounds[passes - 1].pl)
      ensures done == old(done) && SameTarget(rounds) ==> passes <= 14
      ensures forall k | 6 <= k < passes :: SomeArrived(rounds, k)
      ensures !over ==> reloadFails == Failures(rounds, passes, old(reloadFails)) && (passes > 0 ==> reloadFails <= 5)
    {
      hide Proper, Owed, LastAttempt, RoundOk, ClampTarget, AtTheTop, AfterRound, AfterRounds, Quiet, Failures, SameTarget, SomeArrived;
      passes, over := 0, false;
      StartsRounds(View(), rounds);
      while passes < |rounds|
        invariant Valid() && !overflowed && Timed() && old(trace) <= trace && done >= old(done) && passes <= |rounds|
        invariant AfterRounds(old(View()), rounds, passes) == Some(View())
        invariant reloadFails == Failures(rounds, passes, old(reloadFails))
        invariant passes > 0 ==> reloadFails <= 5
        invariant forall k | 6 <= k < passes :: SomeArrived(rounds, k)
        invariant done == old(done) && SameTarget(rounds) ==>
          quiet == passes && (passes > 0 ==> quietTarget == ClampTarget(rounds[0].pl.target))
      {
        var r := rounds[passes];
        RoundStep(old(View()), rounds, passes, View());
        SameTargetAt(rounds, passes);
        if passes >= 6 { ArrivedLately(rounds, passes, old(reloadFails)); }
        passes := passes + 1;
        over := Turn(r);
        if over {
          OverForGood(old(View()), rounds, passes, |rounds|);
          return;
        }
      }
    }
  }

  // A playlist with nothing from nextSeq on, whose end is where it was.
  ghost predicate Stuck(pl: Playlist, haveStart: bool, nextSeq: int, lastEdge: int) {
    && haveStart && pl.segments != [] && pl.segments[|pl.segments| - 1].seqNo == lastEdge
    && forall k | 0 <= k < |pl.segments| :: pl.segments[k].seqNo < nextSeq
  }

  // How many reloads in a row have failed after the first n rounds, with so many before them.
  function Failures(rounds: seq<Round>, n: nat, before: nat): nat
    requires n <= |rounds|
  {
    if n == 0 then before else if rounds[n - 1].reloaded then 0 else Failures(rounds, n - 1, before) + 1
  }

  // One of the last six reloads before round k succeeded.
  ghost predicate SomeArrived(rounds: seq<Round>, k: nat)
    requires 6 <= k <= |rounds|
  {
    exists j :: k - 6 <= j < k && rounds[j].reloaded
  }

  lemma {:induction false} FailuresCount(rounds: seq<Round>, m: nat, n: nat, before: nat)
    requires m <= n <= |rounds| && forall j | m <= j < n :: !rounds[j].reloaded
    ensures n - m <= Failures(rounds, n, before)
  {
    if m < n { FailuresCount(rounds, m, n - 1, before); }
  }

  lemma ArrivedLately(rounds: seq<Round>, k: nat, before: nat)
    requires 6 <= k <= |rounds| && Failures(rounds, k, before) <= 5
    ensures SomeArrived(rounds, k)
  {
    if forall j | k - 6 <= j < k :: !rounds[j].reloaded { FailuresCount(rounds, k - 6, k, before); }
  }

  ghost predicate SameTarget(rounds: seq<Round>) {
    forall k | 0 <= k < |rounds| :: ClampTarget(rounds[k].pl.target) == ClampTarget(rounds[0].pl.target)
  }
}
