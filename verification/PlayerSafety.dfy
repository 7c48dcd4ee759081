/** What the protocol of src/player.c guarantees in every interleaving: nothing is used after it is
    freed, every connection is retired once, late callbacks are silent, and sources stay few. */
module PlayerSafety {
  import opened Prelude
  import opened Player
  import opened PlayerBounds

  // ---- memory -----------------------------------------------------------------------------------

  lemma HeldIsUsable(s: State, c: ConnId)
    requires OwnedIn(s)
    requires s.conn == Some(c) || UiHolds(s.ui) == Some(c) || DecodeHolds(s.decode) == Some(c)
    ensures Usable(s, Memory(c)) && Usable(s, RingOf(c))
    ensures Unstarted(s.decode) != Some(c) ==> Usable(s, HandleOf(c))
  {}

  lemma UiTouchesUsable(s: State, ok: bool, cell: Cell)
    requires OwnedIn(s) && Scheduled(s) && cell in Touched(s, UiStep(ok))
    ensures Usable(s, cell)
  {
    hide OwnedIn, Usable;
    if UiHolds(s.ui).Some? { HeldIsUsable(s, UiHolds(s.ui).value); }
  }

  lemma DecodeTouchesUsable(s: State, choice: Choice, cell: Cell)
    requires OwnedIn(s) && Scheduled(s) && cell in Touched(s, DecodeStep(choice))
    ensures Usable(s, cell)
  {
    hide OwnedIn, Usable;
    if DecodeHolds(s.decode).Some? { HeldIsUsable(s, DecodeHolds(s.decode).value); }
    if s.ring.Some? && DecodeUses(s.decode) == s.ring { HeldIsUsable(s, s.ring.value); }
  }

  lemma LiveIsUsable(s: State, c: ConnId)
    requires OwnedIn(s) && HasWorker(s, c)
    ensures Usable(s, HandleOf(c)) && Usable(s, RingOf(c))
  {
    ReaperOk(s, c);
  }

  lemma ReapTouchesUsable(s: State, c: ConnId, cell: Cell)
    requires OwnedIn(s) && cell in Touched(s, ReapStep(c))
    ensures Usable(s, cell)
  {
    ReaperOk(s, c);
    hide OwnedIn;
  }

  /** No step of any thread touches a connection, ring or handle that has been freed, nor a null one. */
  lemma NothingUsedAfterFree(s: State, a: Action, cell: Cell)
    requires Reachable(s) && Step(s, a).Some? && cell in Touched(s, a)
    ensures Usable(s, cell)
  {
    ReachableInv(s);
    hide OwnedIn, HandedIn, AbortedFirst, Scheduled, Dated, Usable, UiNext, DecodeNext, ReapNext;
    match a
    case UiStep(ok) => UiTouchesUsable(s, ok, cell);
    case DecodeStep(choice) => DecodeTouchesUsable(s, choice, cell);
    case ReapStep(c) => ReapTouchesUsable(s, c, cell);
    case WorkerCallback(c, _) => LiveIsUsable(s, c);
    case WorkerWrite(c) => LiveIsUsable(s, c);
    case _ =>
  }

  // ---- every connection is retired once ----------------------------------------------------------

  /** conn_release is entered at most once for a connection, and exactly once for every started one
      whose owner has let go of it. */
  lemma ReleasedExactlyOnce(s: State, c: ConnId)
    requires Reachable(s) && c < |s.conns|
    ensures s.conns[c].releases <= 1
    ensures !s.conns[c].source.NotStarted? ==>
      (s.conns[c].releases == 0 <==>
       s.conn == Some(c) || (UiHolds(s.ui) == Some(c) && !s.ui.StopRelease?))
    ensures s.conns[c].source.NotStarted? ==>
      s.conns[c].releases == 0 && (s.conns[c].freed || Unstarted(s.decode) == Some(c))
  {
    ReachableInv(s);
    ReaperOk(s, c);
    Holders(s);
    HolderOf(s, c);
    HandedAt(s, c);
    hide OwnedIn, HandedIn, AbortedFirst, Scheduled, Dated;
  }

  lemma HolderOf(s: State, c: ConnId)
    requires OwnedIn(s) && c < |s.conns|
    ensures s.conns[c].reaper.NoReaper? && !s.conns[c].freed ==>
      s.conn == Some(c) || UiHolds(s.ui) == Some(c) || DecodeHolds(s.decode) == Some(c)
  {}

  lemma HandedAt(s: State, c: ConnId)
    requires HandedIn(s) && c < |s.conns|
    ensures s.conns[c].releases ==
      if !s.conns[c].reaper.NoReaper? || UiReleases(s.ui) == Some(c) || DecodeReleases(s.decode) == Some(c)
      then 1 else 0
  {}

  // Nobody plays, and no stop is in progress.
  predicate Quiet(s: State) {
    s.ui.UiIdle? && s.conn.None? && (s.decode.NoThread? || s.decode.Finished?)
  }

  /** Once the player is quiet, every connection is freed or with its reaper, started ones having
      been released. */
  lemma QuietLeavesNothing(s: State, c: ConnId)
    requires Reachable(s) && Quiet(s) && c < |s.conns|
    ensures s.conns[c].freed || !s.conns[c].reaper.NoReaper?
    ensures !s.conns[c].source.NotStarted? ==> s.conns[c].releases == 1
    ensures s.reapers == 0 ==> s.conns[c].freed && s.conns[c].ringFreed && !s.conns[c].source.Live?
  {
    ReleasedExactlyOnce(s, c);
    ReachableInv(s);
    ReaperOk(s, c);
    HolderOf(s, c);
    if s.reapers == 0 {
      AtMostSixOpen(s);
      hide Inv, OwnedIn, HandedIn, Limit, Tally;
      TallyZero(s.conns, Reaping, c);
    }
  }

  // ---- progress ------------------------------------------------------------------------------------

  /** The UI thread waits for nothing but the end of the decode thread. */
  lemma UiNeverStuck(s: State, ok: bool)
    requires Reachable(s) && !s.ui.UiIdle?
    ensures UiNext(s, ok).None? <==> s.ui.StopJoin? && s.threadRunning && !s.decode.Finished?
  {
    ReachableInv(s);
    hide OwnedIn, HandedIn, AbortedFirst, Dated;
    Holders(s);
  }

  // What is left for the decode thread to do, apart from waiting, reading and decoding.
  function Rank(d: Decode): nat {
    match d
    case NoThread => 0
    case Finished => 0
    case ExitRelease(_, at) => Rest(at)
    case Exiting(_) => 4
    case SwitchDiscard(_, _, _, _) => 5
    case Streaming(_, hops, point) => if InEnd(point) then 5 else if InOpening(point) then Ahead(hops) else 6
    case SwitchRelease(_, hops, _, at) => Ahead(hops) + Rest(at)
    case SwitchInstall(_, hops, _) => Ahead(hops) + 4
    case SwitchAlloc(_, hops, _) => Ahead(hops) + 5
    case SwitchGen(_, hops, _) => Ahead(hops) + 6
  }

  function Rest(at: Release): nat {
    match at
    case Abort => 3
    case Count => 2
    case Spawn => 1
  }

  function Ahead(hops: nat): nat {
    if hops > MAX_SOURCE_HOPS then 7 else 7 + 10 * (MAX_SOURCE_HOPS - hops)
  }

  // A step inside the waiting for the first bytes, the playing, or the waiting for the end.
  predicate Lingers(d: Decode, d': Decode) {
    && d.Streaming? && d'.Streaming? && d' == d.(point := d'.point)
    && InOpening(d'.point) == InOpening(d.point) && InEnd(d'.point) == InEnd(d.point)
  }

  // A step nearer, for the phases of the decode thread.
  predicate Nearer(d: Decode, d': Decode) {
    Lingers(d, d') || Rank(d') < Rank(d)
  }

  lemma OpeningProgresses(s: State, choice: Choice)
    requires s.decode.Streaming? && InOpening(s.decode.point)
    ensures OpeningNext(s, choice).Some? && Nearer(s.decode, OpeningNext(s, choice).value.decode)
  {
    hide RingAborted, WithError;
  }

  lemma EndProgresses(s: State, choice: Choice)
    requires s.decode.Streaming? && InEnd(s.decode.point)
    ensures EndNext(s, choice).Some? && Nearer(s.decode, EndNext(s, choice).value.decode)
  {
    hide WithError;
  }

  lemma LateProgresses(s: State, choice: Choice)
    requires s.decode.Streaming? && InLate(s.decode.point)
    ensures LateNext(s, choice).Some? && Nearer(s.decode, LateNext(s, choice).value.decode)
  {}

  lemma DecodingProgresses(s: State, choice: Choice)
    requires s.decode.Streaming? && !InOpening(s.decode.point) && !InEnd(s.decode.point) && !InLate(s.decode.point)
    ensures DecodingNext(s, choice).Some? && Nearer(s.decode, DecodingNext(s, choice).value.decode)
  {
    hide RingAborted, WithError;
  }

  lemma PlaybackProgresses(s: State, choice: Choice)
    requires s.decode.Streaming?
    ensures PlaybackNext(s, choice).Some? && Nearer(s.decode, PlaybackNext(s, choice).value.decode)
  {
    hide OpeningNext, EndNext, DecodingNext, LateNext, InOpening, InEnd, InLate, Nearer;
    if InOpening(s.decode.point) {
      OpeningProgresses(s, choice);
    } else if InEnd(s.decode.point) {
      EndProgresses(s, choice);
    } else if InLate(s.decode.point) {
      LateProgresses(s, choice);
    } else {
      DecodingProgresses(s, choice);
    }
  }

  lemma RetireProgresses(s: State)
    requires s.decode.Exiting? || s.decode.ExitRelease? || s.decode.SwitchRelease?
    requires Holds(s.conns, s.conn, None) && Holds(s.conns, DecodeHolds(s.decode), None)
    ensures ExitNext(s).Some? <==> !s.decode.SwitchRelease?
    ensures RetireNext(s).Some? <==> s.decode.SwitchRelease?
    ensures ExitNext(s).Some? ==> Rank(ExitNext(s).value.decode) < Rank(s.decode)
    ensures RetireNext(s).Some? ==> Rank(RetireNext(s).value.decode) < Rank(s.decode)
  {}

  lemma SwitchProgresses(s: State, choice: Choice)
    requires s.decode.SwitchGen? || s.decode.SwitchAlloc?
    ensures SwitchNext(s, choice).Some? && Rank(SwitchNext(s, choice).value.decode) < Rank(s.decode)
  {}

  lemma InstallProgresses(s: State, choice: Choice)
    requires OwnedIn(s) && Scheduled(s) && (s.decode.SwitchInstall? || s.decode.SwitchDiscard?)
    ensures InstallNext(s, choice).Some? && Rank(InstallNext(s, choice).value.decode) < Rank(s.decode)
  {
    HeldIsUsable(s, s.decode.made);
    if s.ring.Some? { HeldOrRead(s); }
    hide OwnedIn, Scheduled;
  }

  // What the decode thread reads from exists.
  lemma HeldOrRead(s: State)
    requires OwnedIn(s) && Scheduled(s) && DecodeUses(s.decode).Some?
    ensures DecodeUses(s.decode).value < |s.conns|
  {
    HeldIsUsable(s, DecodeUses(s.decode).value);
  }

  /** The decode thread can always go on until it has finished, and every step of it that does not
      linger where it waits, plays or waits for the end brings it nearer. */
  lemma DecodeProgresses(s: State, choice: Choice)
    requires Reachable(s) && !s.decode.NoThread? && !s.decode.Finished?
    ensures DecodeNext(s, Leave).Some?
    ensures DecodeNext(s, choice).Some? ==> Nearer(s.decode, DecodeNext(s, choice).value.decode)
  {
    ReachableInv(s);
    hide OwnedIn, HandedIn, AbortedFirst, Scheduled, Dated, Rank, Lingers, RingAborted;
    Holders(s);
    hide PlaybackNext, SwitchNext, InstallNext, RetireNext, ExitNext;
    if s.decode.Streaming? {
      PlaybackProgresses(s, choice);
      PlaybackProgresses(s, Leave);
    } else if s.decode.SwitchGen? || s.decode.SwitchAlloc? {
      SwitchProgresses(s, choice);
      SwitchProgresses(s, Leave);
    } else if s.decode.SwitchInstall? || s.decode.SwitchDiscard? {
      InstallProgresses(s, choice);
      InstallProgresses(s, Leave);
    } else {
      RetireProgresses(s);
    }
  }

  // The steps the decode thread has left once a stop is under way and its ring is aborted.
  function Left(d: Decode): nat {
    match d
    case NoThread => 0
    case Finished => 0
    case Exiting(_) => 1
    case ExitRelease(_, at) => Rest(at)
    case SwitchDiscard(_, _, _, _) => 2
    case SwitchInstall(_, _, _) => 3
    case SwitchAlloc(_, _, _) => 4
    case SwitchGen(_, _, _) => 5
    case SwitchRelease(_, _, _, at) => 4 + Rest(at)
    case Streaming(_, _, point) => LeftAt(point)
  }

  function LeftAt(point: Point): nat {
    match point
    case Start => 4
    case PreTest => 3
    case PreCount => 4
    case PreAsk => 3
    case PreBody => 4
    case PreLeft => 2
    case Fill => 3
    case FillLeft => 2
    case Report => 7
    case Classify => 6
    case EndTest => 3
    case EndAsk => 3
    case EndLeft => 2
    case EndResult => 2
    case First => 3
    case LoopTest => 2
    case Read => 3
    case Closed => 2
    case Feed => 4
    case LateAsk => 4
    case LateTest => 4
    case LateCount => 5
    case LateAgain => 4
    case LateBody => 5
    case Progress => 3
  }

  lemma StoppedOpening(s: State, choice: Choice)
    requires s.decode.Streaming? && s.stop && RingAborted(s)
    ensures OpeningNext(s, choice).Some? ==> Left(OpeningNext(s, choice).value.decode) < Left(s.decode)
    ensures EndNext(s, choice).Some? ==> Left(EndNext(s, choice).value.decode) < Left(s.decode)
  {
    hide RingAborted, WithError;
  }

  lemma StoppedDecoding(s: State, choice: Choice)
    requires s.decode.Streaming? && s.stop && RingAborted(s)
    ensures DecodingNext(s, choice).Some? ==> Left(DecodingNext(s, choice).value.decode) < Left(s.decode)
    ensures LateNext(s, choice).Some? ==> Left(LateNext(s, choice).value.decode) < Left(s.decode)
  {
    hide RingAborted, WithError;
  }

  lemma StoppedPlayback(s: State, choice: Choice)
    requires s.decode.Streaming? && s.stop && RingAborted(s)
    ensures PlaybackNext(s, choice).Some? ==> Left(PlaybackNext(s, choice).value.decode) < Left(s.decode)
  {
    StoppedOpening(s, choice);
    StoppedDecoding(s, choice);
    hide OpeningNext, EndNext, DecodingNext, LateNext, RingAborted, Left;
  }

  lemma StoppedOtherwise(s: State, choice: Choice)
    requires !s.decode.Streaming? && s.stop
    ensures SwitchNext(s, choice).Some? ==> Left(SwitchNext(s, choice).value.decode) < Left(s.decode)
    ensures InstallNext(s, choice).Some? ==> Left(InstallNext(s, choice).value.decode) < Left(s.decode)
    ensures RetireNext(s).Some? ==> Left(RetireNext(s).value.decode) < Left(s.decode)
    ensures ExitNext(s).Some? ==> Left(ExitNext(s).value.decode) < Left(s.decode)
  {}

  // During the join, the ring the decode thread reads is one player_stop has aborted.
  lemma JoinAborted(s: State)
    requires OwnedIn(s) && AbortedFirst(s) && Scheduled(s) && s.ui.StopJoin? && s.decode.Streaming?
    ensures s.stop && RingAborted(s)
  {
    HeldIsUsable(s, s.decode.cur);
    hide OwnedIn;
  }

  lemma JoinDecodes(s: State, choice: Choice)
    requires Inv(s) && s.ui.StopJoin? && DecodeNext(s, choice).Some?
    ensures Left(DecodeNext(s, choice).value.decode) < Left(s.decode)
  {
    assert s.stop by { hide OwnedIn, HandedIn, Dated; }
    if s.decode.Streaming? {
      JoinAborted(s);
      StoppedPlayback(s, choice);
    } else {
      StoppedOtherwise(s, choice);
    }
    hide *;
  }

  function DecodeSteps(acts: seq<Action>): nat {
    if acts == [] then 0 else (if acts[0].DecodeStep? then 1 else 0) + DecodeSteps(acts[1..])
  }

  lemma ReachableStep(s: State, a: Action, s': State)
    requires Reachable(s) && Step(s, a) == Some(s')
    ensures Reachable(s')
  {
    hide Step;
    var acts :| Run(START, acts) == Some(s);
    RunAppend(START, acts, a);
    assert Run(START, acts + [a]) == Some(s');
  }

  lemma {:induction false} RunAppend(s: State, acts: seq<Action>, a: Action)
    requires Run(s, acts).Some?
    ensures Run(s, acts + [a]) == Step(Run(s, acts).value, a)
    decreases |acts|
  {
    hide Step;
    if acts == [] {
      assert acts + [a] == [a];
      assert forall t :: Run(t, []) == Some(t);
    } else {
      assert (acts + [a])[1..] == acts[1..] + [a];
      RunAppend(Step(s, acts[0]).value, acts[1..], a);
    }
  }

  /** player_stop's join is short: however the threads are scheduled and whatever the network does,
      the decode thread makes at most Left(s.decode) <= 7 further steps, each test of g_stop, each poll and
      each read counted. */
  lemma {:induction false} JoinIsShort(s: State, acts: seq<Action>)
    requires Reachable(s) && s.ui.StopJoin? && Run(s, acts).Some?
    requires forall i | 0 <= i < |acts| :: !acts[i].UiStep?
    ensures DecodeSteps(acts) + Left(Run(s, acts).value.decode) <= Left(s.decode) <= 7
    decreases |acts|
  {
    if acts != [] {
      var next := Step(s, acts[0]).value;
      ReachableStep(s, acts[0], next);
      JoinStep(s, acts[0], next);
      hide Step, Left;
      JoinIsShort(next, acts[1..]);
    }
  }

  // Only the UI thread changes where the UI thread is, and only the decode thread where the decode
  // thread is.
  lemma DecodeKeepsUi(s: State, choice: Choice)
    ensures DecodeNext(s, choice).Some? ==> DecodeNext(s, choice).value.ui == s.ui
  {}

  lemma OthersKeepBoth(s: State, a: Action)
    requires a.ReapStep? || a.WorkerCallback? || a.WorkerWrite?
    ensures Step(s, a).Some? ==> Step(s, a).value.ui == s.ui && Step(s, a).value.decode == s.decode
  {}

  lemma JoinStep(s: State, a: Action, s': State)
    requires Reachable(s) && s.ui.StopJoin? && Step(s, a) == Some(s') && !a.UiStep?
    ensures s'.ui.StopJoin?
    ensures (if a.DecodeStep? then 1 else 0) + Left(s'.decode) <= Left(s.decode)
  {
    if a.DecodeStep? {
      assert DecodeNext(s, a.choice) == Some(s');
      ReachableInv(s);
      hide *;
      DecodeKeepsUi(s, a.choice);
      JoinDecodes(s, a.choice);
    } else {
      assert a.ReapStep? || a.WorkerCallback? || a.WorkerWrite?;
      hide *;
      OthersKeepBoth(s, a);
    }
  }

  // ---- callbacks of retired connections --------------------------------------------------------------

  /** A callback can change the status only while its connection is the newest of all, and either has
      not been handed to conn_release or was retired by a decode thread that left of its own accord. */
  lemma HeardOnlyFromNewest(s: State, c: ConnId, call: Callback, s': State)
    requires Reachable(s) && Step(s, WorkerCallback(c, call)) == Some(s') && s' != s
    ensures c == |s.conns| - 1 && s.conns[c].gen == s.gen
    ensures s.conns[c].releases == 0 || LeftByItself(s)
  {
    ReachableInv(s);
    if c < |s.conns| - 1 { OlderThan(s.conns, s.gen, Unused(s), !LeftByItself(s), c, |s.conns| - 1); }
    hide OwnedIn, HandedIn, AbortedFirst, Scheduled;
  }

  lemma {:induction false} RunOutdates(s: State, acts: seq<Action>, c: ConnId)
    requires Outdated(s, c) && Run(s, acts).Some?
    ensures Outdated(Run(s, acts).value, c)
    decreases |acts|
  {
    if acts != [] {
      StepOutdates(s, acts[0], c);
      hide Step;
      RunOutdates(Step(s, acts[0]).value, acts[1..], c);
    }
  }

  predicate Outdated(s: State, c: ConnId) {
    c < |s.conns| && s.conns[c].gen < s.gen
  }

  lemma UiOutdates(s: State, ok: bool, c: ConnId)
    requires Outdated(s, c) && UiNext(s, ok).Some?
    ensures Outdated(UiNext(s, ok).value, c)
  {
    hide PlayNext, StartNext;
    if StartNext(s, ok).Some? || PlayNext(s, ok).Some? { PlayOutdates(s, ok, c); }
  }

  lemma PlayOutdates(s: State, ok: bool, c: ConnId)
    requires Outdated(s, c)
    ensures StartNext(s, ok).Some? ==> Outdated(StartNext(s, ok).value, c)
    ensures PlayNext(s, ok).Some? ==> Outdated(PlayNext(s, ok).value, c)
  {}

  lemma SwitchOutdates(s: State, choice: Choice, c: ConnId)
    requires Outdated(s, c)
    ensures PlaybackNext(s, choice).Some? ==> Outdated(PlaybackNext(s, choice).value, c)
    ensures SwitchNext(s, choice).Some? ==> Outdated(SwitchNext(s, choice).value, c)
  {
    hide PlaybackMove;
  }

  lemma InstallOutdates(s: State, choice: Choice, c: ConnId)
    requires Outdated(s, c)
    ensures InstallNext(s, choice).Some? ==> Outdated(InstallNext(s, choice).value, c)
  {}

  lemma RetireOutdates(s: State, c: ConnId)
    requires Outdated(s, c)
    ensures RetireNext(s).Some? ==> Outdated(RetireNext(s).value, c)
    ensures ExitNext(s).Some? ==> Outdated(ExitNext(s).value, c)
  {}

  lemma StepOutdates(s: State, a: Action, c: ConnId)
    requires Outdated(s, c) && Step(s, a).Some?
    ensures Outdated(Step(s, a).value, c)
  {
    hide UiNext, PlaybackNext, SwitchNext, InstallNext, RetireNext, ExitNext, Called;
    match a
    case UiStep(ok) => UiOutdates(s, ok, c);
    case DecodeStep(choice) =>
      SwitchOutdates(s, choice, c);
      InstallOutdates(s, choice, c);
      RetireOutdates(s, c);
    case _ =>
  }

  // The steps that renew the generation: the end of player_stop, and the start of a source switch.
  predicate Renews(s: State, a: Action) {
    || (a.UiStep? && s.ui.StopClear?)
    || (a.DecodeStep? && s.decode.SwitchGen?)
  }

  /** After a stop or a source switch, no callback of any earlier connection ever changes anything
      again, whatever happens in between. */
  lemma SilencedForever(s: State, a: Action, acts: seq<Action>, c: ConnId, call: Callback)
    requires Reachable(s) && c < |s.conns| && Renews(s, a)
    requires Run(s, [a] + acts).Some?
    ensures var t := Run(s, [a] + acts).value;
      Step(t, WorkerCallback(c, call)) == Some(t) || Step(t, WorkerCallback(c, call)) == None
  {
    ReachableInv(s);
    assert ([a] + acts)[1..] == acts;
    var next := Step(s, a).value;
    RenewalOutdates(s, a, next, c);
    hide Inv;
    RunOutdates(next, acts, c);
  }

  lemma RenewalOutdates(s: State, a: Action, s': State, c: ConnId)
    requires OwnedIn(s) && Dated(s) && c < |s.conns| && Renews(s, a) && Step(s, a) == Some(s')
    ensures c < |s'.conns| && s'.conns[c].gen < s'.gen
  {
    assert s.conns[c].gen <= s.gen;
    hide OwnedIn, Dated;
  }

  /** Of the retired connections, exactly those of the current generation are still heard; and there
      are some only where the decode thread left by itself, since its exit path renews no generation. */
  lemma RetiredHeardIff(s: State, c: ConnId)
    requires Reachable(s) && HasWorker(s, c) && s.conns[c].releases > 0
    ensures (exists call :: Step(s, WorkerCallback(c, call)) != Some(s)) <==> s.conns[c].gen == s.gen
    ensures s.conns[c].gen == s.gen ==> LeftByItself(s)
  {
    ReachableInv(s);
    hide OwnedIn, HandedIn, AbortedFirst, Scheduled;
    if s.conns[c].gen == s.gen {
      var call := OnTitle(s.status.title + "!");
      assert |s.status.title + "!"| == |s.status.title| + 1;
      assert Step(s, WorkerCallback(c, call)).value.status.title == s.status.title + "!";
    }
  }

  // One station is played, its stream ends, and its connection is handed to a reaper.
  const PLAYED := State([Conn(1, Live, false, false, false, 0, NoReaper)], 1, false, Some(0), Some(0), Some(0), 0, true,
                        CLEARED.(state := Connecting, url := "u"), UiIdle, Streaming(0, 0, Start))

  const ENDED := State([Conn(1, Live, true, false, false, 1, Spawned)], 1, false, None, None, None, 1, true,
                       CLEARED.(state := Failed, url := "u", error := "Stream ended"), UiIdle, Finished)

  lemma UiGoes(s: State, s': State)
    requires Reachable(s) && UiNext(s, true) == Some(s')
    ensures Reachable(s')
  {
    hide UiNext, Reachable;
    ReachableStep(s, UiStep(true), s');
  }

  lemma DecodeGoes(s: State, choice: Choice, s': State)
    requires Reachable(s) && DecodeNext(s, choice) == Some(s')
    ensures Reachable(s')
  {
    hide DecodeNext, Reachable;
    ReachableStep(s, DecodeStep(choice), s');
  }

  // After the stop that player_play begins with; and with everything checked.
  const STOPPED := State([], 1, true, None, None, None, 0, false, CLEARED, PlayBegin("u"), NoThread)
  const CHECKED := PLAYED.(conns := [], conn := None, source := None, ring := None, threadRunning := false,
                           ui := PlayStart("u", 1), decode := NoThread)

  lemma StopsFirst()
    ensures Reachable(STOPPED)
  {
    assert Run(START, []) == Some(START);
    hide Reachable, PlayNext, StartNext;
    var s := START.(stop := true, ui := StopDetach(ToPlay("u")));
    ReachableStep(START, CallPlay("u"), s);
    UiGoes(s, s.(ui := StopAbort(ToPlay("u"), None)));
    UiGoes(s.(ui := StopAbort(ToPlay("u"), None)), s.(ui := StopJoin(ToPlay("u"), None)));
    UiGoes(s.(ui := StopJoin(ToPlay("u"), None)), s.(ui := StopClear(ToPlay("u"), None)));
    UiGoes(s.(ui := StopClear(ToPlay("u"), None)), STOPPED);
  }

  lemma ChecksNext()
    ensures Reachable(CHECKED)
  {
    StopsFirst();
    hide Reachable, StopNext, StopEndNext, StartNext;
    UiGoes(STOPPED, STOPPED.(stop := false, ui := PlayStatus("u")));
    UiGoes(STOPPED.(stop := false, ui := PlayStatus("u")), CHECKED.(ui := PlayCheck("u", 1)));
    UiGoes(CHECKED.(ui := PlayCheck("u", 1)), CHECKED);
  }

  lemma PlaysOnce()
    ensures Reachable(PLAYED)
  {
    ChecksNext();
    hide Reachable, StopNext, StopEndNext, PlayNext;
    var s := CHECKED.(conns := PLAYED.conns, ui := PlayRing(0));
    assert [] + PLAYED.conns == PLAYED.conns;
    UiGoes(CHECKED, s);
    UiGoes(s, s.(ring := Some(0), ui := PlayInstall(0)));
    var t := PLAYED.(threadRunning := false, ui := PlaySpawn(0), decode := NoThread);
    UiGoes(s.(ring := Some(0), ui := PlayInstall(0)), t);
    UiGoes(t, PLAYED.(threadRunning := false, ui := PlayRunning));
    UiGoes(PLAYED.(threadRunning := false, ui := PlayRunning), PLAYED);
  }

  // The stream is over before it has brought a byte.
  lemma BringsNothing()
    ensures Reachable(PLAYED.(decode := Streaming(0, 0, Report)))
  {
    PlaysOnce();
    hide Reachable;
    var wait, leave := Proceed(true), Proceed(false);
    Onwards(Start, leave, PreTest);
    Onwards(PreTest, leave, PreCount);
    Onwards(PreCount, wait, PreAsk);
    Onwards(PreAsk, leave, PreLeft);
    Onwards(PreLeft, leave, Fill);
    Onwards(Fill, leave, FillLeft);
    Onwards(FillLeft, leave, Report);
  }

  lemma EndsByItself()
    ensures Reachable(PLAYED.(status := ENDED.status, decode := Exiting(0)))
  {
    BringsNothing();
    hide Reachable;
    var leave := Proceed(false);
    Onwards(Report, leave, Classify);
    Onwards(Classify, Leave, EndTest);
    Onwards(EndTest, leave, EndAsk);
    Onwards(EndAsk, leave, EndLeft);
    Onwards(EndLeft, leave, EndResult);
    DecodeGoes(PLAYED.(decode := Streaming(0, 0, EndResult)), Leave, PLAYED.(status := ENDED.status, decode := Exiting(0)));
  }

  lemma Onwards(at: Point, choice: Choice, next: Point)
    requires Reachable(PLAYED.(decode := Streaming(0, 0, at)))
    requires PlaybackNext(PLAYED.(decode := Streaming(0, 0, at)), choice) == Some(PLAYED.(decode := Streaming(0, 0, next)))
    ensures Reachable(PLAYED.(decode := Streaming(0, 0, next)))
  {
    hide Reachable, PlaybackNext;
    DecodeGoes(PLAYED.(decode := Streaming(0, 0, at)), choice, PLAYED.(decode := Streaming(0, 0, next)));
  }

  /** The retired connection of a stream that ended by itself can still set the title. */
  lemma EndedConnectionStillHeard()
    ensures Reachable(ENDED) && Quiet(ENDED) && HasWorker(ENDED, 0) && ENDED.conns[0].releases == 1
    ensures Step(ENDED, WorkerCallback(0, OnTitle("late"))) == Some(ENDED.(status := ENDED.status.(title := "late")))
    ensures ENDED.status.title == ""
  {
    PlaysOnce();
    hide Reachable;
    EndsByItself();
    var failed := PLAYED.(status := ENDED.status, decode := Exiting(0));
    assert forall k: Conn, n: Conn :: [k][0 := n] == [n];
    var t := ENDED.(conns := [PLAYED.conns[0].(releases := 1)], reapers := 0, decode := ExitRelease(0, Abort));
    DecodeGoes(failed, Leave, t);
    var u := t.(conns := [t.conns[0].(aborted := true)], decode := ExitRelease(0, Count));
    DecodeGoes(t, Leave, u);
    DecodeGoes(u, Leave, u.(reapers := 1, decode := ExitRelease(0, Spawn)));
    DecodeGoes(u.(reapers := 1, decode := ExitRelease(0, Spawn)), Leave, ENDED);
  }
}
