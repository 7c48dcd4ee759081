/** How many connections of src/player.c are open at once: the reaper count is exact, and together
    with the limit on source switches it keeps the live sources few. */
module PlayerBounds {
  import opened Prelude
  import opened Player

  // ---- counting -----------------------------------------------------------------------------------

  // A retired connection whose reaper still counts; and any connection that has, or may still own, a source.
  datatype Kind = Reaping | Open

  predicate Is(k: Conn, kind: Kind) {
    match kind
    case Reaping => !k.reaper.NoReaper? && !k.reaper.Counted?
    case Open => k.source.Live? || (!k.reaper.NoReaper? && !k.reaper.Counted?)
  }

  function One(b: bool): nat {
    if b then 1 else 0
  }

  function Tally(conns: seq<Conn>, kind: Kind): nat {
    if conns == [] then 0
    else Tally(conns[..|conns| - 1], kind) + One(Is(conns[|conns| - 1], kind))
  }

  lemma {:induction false} TallyUpdate(conns: seq<Conn>, c: ConnId, k: Conn, kind: Kind)
    requires c < |conns|
    ensures Tally(conns[c := k], kind) == Tally(conns, kind) - One(Is(conns[c], kind)) + One(Is(k, kind))
  {
    var init := conns[..|conns| - 1];
    if c == |conns| - 1 {
      assert conns[c := k][..|conns| - 1] == init;
    } else {
      assert conns[c := k][..|conns| - 1] == init[c := k];
      TallyUpdate(init, c, k, kind);
    }
  }

  lemma TallyAppend(conns: seq<Conn>, k: Conn, kind: Kind)
    ensures Tally(conns + [k], kind) == Tally(conns, kind) + One(Is(k, kind))
  {
    assert (conns + [k])[..|conns|] == conns;
  }

  lemma {:induction false} TallySame(conns: seq<Conn>)
    requires forall c: ConnId | c < |conns| :: conns[c].source.Live? ==> !conns[c].reaper.NoReaper? && !conns[c].reaper.Counted?
    ensures Tally(conns, Open) == Tally(conns, Reaping)
  {
    if conns != [] {
      TallySame(conns[..|conns| - 1]);
    }
  }

  lemma {:induction false} TallyZero(conns: seq<Conn>, kind: Kind, c: ConnId)
    requires c < |conns| && Tally(conns, kind) == 0
    ensures !Is(conns[c], kind)
  {
    if c < |conns| - 1 {
      TallyZero(conns[..|conns| - 1], kind, c);
    }
  }

  // ---- the invariant ------------------------------------------------------------------------------

  // Reapers counted by conn_release but not running yet.
  function Spawning(s: State): nat {
    One(s.ui.StopRelease? && s.ui.at.Spawn?) +
    One((s.decode.SwitchRelease? || s.decode.ExitRelease?) && s.decode.at.Spawn?)
  }

  // How many connections may be open at each point.
  function Limit(ui: Ui, d: Decode): nat {
    if ui.PlayStart? then MAX_REAPERS - 1
    else if ui.PlayRing? || ui.PlayInstall? || ui.PlaySpawn? then MAX_REAPERS
    else
      match d
      case Streaming(_, hops, _) => MAX_REAPERS + hops
      case SwitchRelease(_, hops, _, _) => MAX_REAPERS + hops
      case SwitchGen(_, hops, _) => MAX_REAPERS - 1 + hops
      case SwitchAlloc(_, hops, _) => MAX_REAPERS - 1 + hops
      case SwitchInstall(_, hops, _) => MAX_REAPERS - 1 + hops
      case SwitchDiscard(_, hops, _, _) => MAX_REAPERS - 1 + hops
      case _ => MAX_REAPERS + MAX_SOURCE_HOPS
  }

  predicate Bounded(s: State) {
    && s.reapers == Tally(s.conns, Reaping) + Spawning(s)
    && Tally(s.conns, Open) <= Limit(s.ui, s.decode)
  }

  lemma LimitAtMost(s: State)
    requires Scheduled(s)
    ensures Limit(s.ui, s.decode) <= MAX_REAPERS + MAX_SOURCE_HOPS
  {}

  // The effect on both counts of replacing one connection.
  lemma Replaced(conns: seq<Conn>, c: ConnId, k: Conn)
    requires c < |conns|
    ensures Tally(conns[c := k], Reaping) == Tally(conns, Reaping) - One(Is(conns[c], Reaping)) + One(Is(k, Reaping))
    ensures Tally(conns[c := k], Open) == Tally(conns, Open) - One(Is(conns[c], Open)) + One(Is(k, Open))
  {
    TallyUpdate(conns, c, k, Reaping);
    TallyUpdate(conns, c, k, Open);
  }

  lemma Appended(conns: seq<Conn>, k: Conn)
    ensures Tally(conns + [k], Reaping) == Tally(conns, Reaping) + One(Is(k, Reaping))
    ensures Tally(conns + [k], Open) == Tally(conns, Open) + One(Is(k, Open))
  {
    TallyAppend(conns, k, Reaping);
    TallyAppend(conns, k, Open);
  }

  // ---- every step keeps it ----------------------------------------------------------------------------

  // What player_stop changes before its end: an abort, and at the join the decode thread is gone.
  lemma StopChanges(s: State, s': State)
    requires StopNext(s) == Some(s')
    ensures s'.reapers == s.reapers && Spawning(s') <= Spawning(s) && (s.decode == s'.decode || (s.decode.Finished? && s'.decode.NoThread?))
    ensures Spawning(s') == Spawning(s) && Stopping(s.ui) && (Stopping(s'.ui) || s'.ui.StopClear?)
    ensures s'.conns == s.conns ||
      (s.ui.StopAbort? && s.ui.taken.Some? && s.ui.taken.value < |s.conns|
       && s'.conns == s.conns[s.ui.taken.value := s.conns[s.ui.taken.value].(aborted := true)])
  {}

  lemma StopKeepsBounded(s: State, s': State)
    requires Scheduled(s) && Bounded(s) && StopNext(s) == Some(s')
    ensures Bounded(s')
  {
    LimitAtMost(s);
    StopChanges(s, s');
    hide Scheduled, Tally, StopNext, Spawning;
    if s'.conns != s.conns { Replaced(s.conns, s.ui.taken.value, s'.conns[s.ui.taken.value]); }
  }

  // conn_release counts a reaper one step before it runs.
  lemma ReleasingCounts(s: State, c: ConnId, at: Release)
    requires c < |s.conns| && s.conns[c].source.Live? && s.conns[c].reaper.NoReaper?
    ensures Tally(Releasing(s, c, at).conns, Open) == Tally(s.conns, Open)
    ensures Releasing(s, c, at).reapers - Tally(Releasing(s, c, at).conns, Reaping) ==
            s.reapers - Tally(s.conns, Reaping) + (if at.Count? then 1 else if at.Spawn? then -1 else 0)
    ensures NextRelease(s, c, at) == if at.Abort? then Some(Count) else if at.Count? then Some(Spawn) else None
  {
    hide Tally;
    if !at.Count? { Replaced(s.conns, c, Releasing(s, c, at).conns[c]); }
  }

  lemma StopClearKeepsBounded(s: State, s': State)
    requires OwnedIn(s) && Scheduled(s) && Bounded(s) && s.ui.StopClear? && StopEndNext(s) == Some(s')
    ensures Bounded(s')
  {
    hide OwnedIn, Scheduled, Tally;
    LimitAtMost(s);
    if s.ui.taken.Some? { Replaced(s.conns, s.ui.taken.value, s'.conns[s.ui.taken.value]); }
  }

  lemma StopReleaseKeepsBounded(s: State, s': State)
    requires OwnedIn(s) && HandedIn(s) && Scheduled(s) && Bounded(s) && s.ui.StopRelease? && StopEndNext(s) == Some(s')
    ensures Bounded(s')
  {
    hide OwnedIn, HandedIn, Tally;
    Holders(s);
    ReleasingCounts(s, s.ui.dead, s.ui.at);
  }

  // When nobody owns a connection, all the open ones are with their reapers.
  lemma OnlyReaping(s: State)
    requires OwnedIn(s) && s.conn.None? && UiHolds(s.ui).None? && DecodeHolds(s.decode).None?
    ensures Tally(s.conns, Open) == Tally(s.conns, Reaping)
  {
    forall c: ConnId | c < |s.conns| && s.conns[c].source.Live?
      ensures !s.conns[c].reaper.NoReaper? && !s.conns[c].reaper.Counted?
    {
      ReaperOk(s, c);
    }
    hide OwnedIn, Tally;
    TallySame(s.conns);
  }

  lemma PlayKeepsBounded(s: State, ok: bool, s': State)
    requires OwnedIn(s) && Scheduled(s) && Bounded(s) && PlayNext(s, ok) == Some(s')
    ensures Bounded(s')
  {
    hide OwnedIn, Tally;
    if s.ui.PlayCheck? { OnlyReaping(s); }
  }

  // What player_play changes from the start of the source on: that source is one more, for which there is room.
  lemma StartChanges(s: State, ok: bool, s': State)
    requires Scheduled(s) && StartNext(s, ok) == Some(s')
    ensures s'.reapers == s.reapers && Spawning(s') == Spawning(s)
    ensures if s.ui.PlayStart? && ok then s'.conns == s.conns + [s'.conns[|s.conns|]] && !Is(s'.conns[|s.conns|], Reaping)
            else s'.conns == s.conns
    ensures Limit(s.ui, s.decode) + One(s.ui.PlayStart? && ok) <= Limit(s'.ui, s'.decode)
  {
    LimitAtMost(s);
  }

  lemma StartKeepsBounded(s: State, ok: bool, s': State)
    requires Scheduled(s) && Bounded(s) && StartNext(s, ok) == Some(s')
    ensures Bounded(s')
  {
    StartChanges(s, ok, s');
    hide Scheduled, Tally, Limit, Spawning, StartNext;
    if s.ui.PlayStart? && ok { Appended(s.conns, s'.conns[|s.conns|]); }
  }

  // While the decode thread switches sources, player_play is not under way, and unless a stop is,
  // the connection being replaced is the installed one.
  lemma SwitchesInstalled(s: State)
    requires Scheduled(s) && !s.decode.NoThread?
    ensures !s.ui.PlayStart? && !s.ui.PlayRing? && !s.ui.PlayInstall? && !s.ui.PlaySpawn?
    ensures s.decode.SwitchInstall? && !s.stop ==> s.conn == Some(s.decode.cur)
  {}

  lemma PlaybackKeepsBounded(s: State, choice: Choice, s': State)
    requires Scheduled(s) && Bounded(s) && PlaybackNext(s, choice) == Some(s')
    ensures Bounded(s')
  {
    LimitAtMost(s);
    PlaybackMoves(s, choice);
    hide Scheduled, Tally, PlaybackMove;
  }

  // A connection made for the next source counts as neither open nor reaped.
  lemma SwitchChanges(s: State, choice: Choice, s': State)
    requires SwitchNext(s, choice) == Some(s')
    ensures s'.reapers == s.reapers
    ensures s'.conns == s.conns ||
      (s'.conns == s.conns + [s'.conns[|s.conns|]]
       && !Is(s'.conns[|s.conns|], Reaping) && !Is(s'.conns[|s.conns|], Open))
  {}

  lemma SwitchKeepsBounded(s: State, choice: Choice, s': State)
    requires Scheduled(s) && Bounded(s) && SwitchNext(s, choice) == Some(s')
    ensures Bounded(s')
  {
    hide Scheduled, Tally, Limit, Spawning, SwitchNext, Is;
    SwitchLimits(s, choice);
    SwitchChanges(s, choice, s');
    if s'.conns != s.conns { Appended(s.conns, s'.conns[|s.conns|]); }
  }

  // The limit stays while the new source is made, and goes up when that fails.
  lemma SwitchLimits(s: State, choice: Choice)
    requires Scheduled(s) && SwitchNext(s, choice).Some?
    ensures var s' := SwitchNext(s, choice).value;
      Limit(s.ui, s.decode) <= Limit(s'.ui, s'.decode) && Spawning(s) == Spawning(s') == One(s.ui.StopRelease? && s.ui.at.Spawn?)
  {
    hide Scheduled;
    LimitAtMost(s);
  }

  // The swap adds the new source to the open connections and changes nothing else that counts.
  lemma SwapCounts(conns: seq<Conn>, c: ConnId, nc: ConnId, live: Conn, handed: Conn)
    requires c < |conns| && nc < |conns| && c != nc
    requires live == conns[nc].(source := Live) && handed == conns[c].(releases := conns[c].releases + 1)
    ensures Tally(conns[nc := live][c := handed], Reaping) == Tally(conns, Reaping)
    ensures Tally(conns[nc := live][c := handed], Open) <= Tally(conns, Open) + 1
  {
    hide Tally;
    Replaced(conns, nc, live);
    Replaced(conns[nc := live], c, handed);
  }

  // A connection handed over to conn_release.
  function Retired(k: Conn): Conn {
    k.(releases := k.releases + 1)
  }

  lemma InstallChanges(s: State, choice: Choice, s': State)
    requires Scheduled(s) && s.decode.SwitchInstall? && InstallNext(s, choice) == Some(s')
    requires s.decode.cur != s.decode.made || s.stop
    ensures s'.reapers == s.reapers && Spawning(s') == Spawning(s)
    ensures s.decode.cur < |s.conns| && s.decode.made < |s.conns|
    ensures var swap := !s.stop && choice == Proceed(true);
      var c, nc := s.decode.cur, s.decode.made;
      && s'.conns == (if swap then s.conns[nc := s.conns[nc].(source := Live)][c := Retired(s.conns[c])] else s.conns)
      && Limit(s.ui, s.decode) + One(swap) <= Limit(s'.ui, s'.decode)
  {
    SwitchesInstalled(s);
    hide Scheduled;
  }

  lemma InstallKeepsBounded(s: State, choice: Choice, s': State)
    requires OwnedIn(s) && HandedIn(s) && Scheduled(s) && Bounded(s)
    requires s.decode.SwitchInstall? && InstallNext(s, choice) == Some(s')
    ensures Bounded(s')
  {
    hide OwnedIn, HandedIn, Scheduled, Tally, Limit, Spawning, InstallNext, Is;
    Holders(s);
    SwitchesInstalled(s);
    InstallChanges(s, choice, s');
    var c, nc := s.decode.cur, s.decode.made;
    if !s.stop && choice == Proceed(true) {
      SwapCounts(s.conns, c, nc, s.conns[nc].(source := Live), Retired(s.conns[c]));
    }
  }

  lemma DiscardKeepsBounded(s: State, choice: Choice, s': State)
    requires OwnedIn(s) && Scheduled(s) && Bounded(s)
    requires s.decode.SwitchDiscard? && InstallNext(s, choice) == Some(s')
    ensures Bounded(s')
  {
    LimitAtMost(s);
    HeldByDecode(s);
    hide OwnedIn, Scheduled, Tally;
    Replaced(s.conns, s.decode.made, s'.conns[s.decode.made]);
  }

  lemma HeldByDecode(s: State)
    requires OwnedIn(s)
    ensures Holds(s.conns, DecodeHolds(s.decode), Unstarted(s.decode))
  {}

  lemma RetireKeepsBounded(s: State, s': State)
    requires OwnedIn(s) && HandedIn(s) && Scheduled(s) && Bounded(s) && RetireNext(s) == Some(s')
    ensures Bounded(s')
  {
    Holders(s);
    SwitchesInstalled(s);
    hide OwnedIn, HandedIn, Scheduled, Tally, Releasing, NextRelease;
    ReleasingCounts(s, s.decode.dead, s.decode.at);
  }

  lemma ExitingKeepsBounded(s: State, s': State)
    requires OwnedIn(s) && Scheduled(s) && Bounded(s) && s.decode.Exiting? && ExitNext(s) == Some(s')
    ensures Bounded(s')
  {
    SwitchesInstalled(s);
    hide OwnedIn, Scheduled, Tally;
    if s'.conns != s.conns { HandedCounts(s.conns, s.conn.value); }
  }

  lemma ExitReleaseKeepsBounded(s: State, s': State)
    requires OwnedIn(s) && HandedIn(s) && Scheduled(s) && Bounded(s) && s.decode.ExitRelease? && ExitNext(s) == Some(s')
    ensures Bounded(s')
  {
    Holders(s);
    SwitchesInstalled(s);
    hide OwnedIn, HandedIn, Scheduled, Tally, Releasing, NextRelease;
    ReleasingCounts(s, s.decode.dead, s.decode.at);
  }

  lemma HandedCounts(conns: seq<Conn>, c: ConnId)
    requires c < |conns|
    ensures Tally(conns[c := conns[c].(releases := conns[c].releases + 1)], Reaping) == Tally(conns, Reaping)
    ensures Tally(conns[c := conns[c].(releases := conns[c].releases + 1)], Open) == Tally(conns, Open)
  {
    hide Tally;
    Replaced(conns, c, conns[c].(releases := conns[c].releases + 1));
  }

  lemma DecodeKeepsBounded(s: State, choice: Choice, s': State)
    requires Inv(s) && Bounded(s) && DecodeNext(s, choice) == Some(s')
    ensures Bounded(s')
  {
    hide OwnedIn, HandedIn, AbortedFirst, Scheduled, Dated, Bounded;
    hide PlaybackNext, SwitchNext, RetireNext;
    if PlaybackNext(s, choice) == Some(s') {
      PlaybackKeepsBounded(s, choice, s');
    } else if SwitchNext(s, choice) == Some(s') {
      SwitchKeepsBounded(s, choice, s');
    } else if InstallNext(s, choice) == Some(s') {
      if s.decode.SwitchInstall? {
        InstallKeepsBounded(s, choice, s');
      } else {
        DiscardKeepsBounded(s, choice, s');
      }
    } else if RetireNext(s) == Some(s') {
      RetireKeepsBounded(s, s');
    } else if s.decode.Exiting? {
      ExitingKeepsBounded(s, s');
    } else {
      ExitReleaseKeepsBounded(s, s');
    }
  }

  lemma UiKeepsBounded(s: State, ok: bool, s': State)
    requires Inv(s) && Bounded(s) && UiNext(s, ok) == Some(s')
    ensures Bounded(s')
  {
    hide OwnedIn, HandedIn, AbortedFirst, Scheduled, Dated, Bounded;
    hide StopNext, PlayNext, StartNext;
    if StopNext(s) == Some(s') {
      StopKeepsBounded(s, s');
    } else if StopEndNext(s) == Some(s') && s.ui.StopClear? {
      StopClearKeepsBounded(s, s');
    } else if StopEndNext(s) == Some(s') {
      StopReleaseKeepsBounded(s, s');
    } else if StartNext(s, ok) == Some(s') {
      StartKeepsBounded(s, ok, s');
    } else {
      PlayKeepsBounded(s, ok, s');
    }
  }

  lemma ReapKeepsBounded(s: State, c: ConnId, s': State)
    requires OwnedIn(s) && Bounded(s) && ReapNext(s, c) == Some(s')
    ensures Bounded(s')
  {
    ReaperOk(s, c);
    hide OwnedIn, Tally;
    Replaced(s.conns, c, s'.conns[c]);
  }

  lemma StepKeepsBounded(s: State, a: Action, s': State)
    requires Inv(s) && Bounded(s) && Step(s, a) == Some(s')
    ensures Bounded(s')
  {
    hide OwnedIn, HandedIn, AbortedFirst, Dated, Tally, UiNext, DecodeNext, ReapNext, Called;
    match a
    case UiStep(ok) => UiKeepsBounded(s, ok, s');
    case DecodeStep(choice) => DecodeKeepsBounded(s, choice, s');
    case ReapStep(c) => ReapKeepsBounded(s, c, s');
    case _ =>
  }

  lemma {:induction false} RunKeepsBounded(s: State, acts: seq<Action>, s': State)
    requires Inv(s) && Bounded(s) && Run(s, acts) == Some(s')
    ensures Bounded(s')
    decreases |acts|
  {
    hide Inv, Bounded, Step;
    if acts != [] {
      var next := Step(s, acts[0]).value;
      StepKeepsInv(s, acts[0], next);
      StepKeepsBounded(s, acts[0], next);
      RunKeepsBounded(next, acts[1..], s');
    }
  }

  lemma StartBounded()
    ensures Bounded(START)
  {
    hide *;
    StartIs();
    EmptyBounded(START);
  }

  lemma StartIs()
    ensures START.conns == [] && START.reapers == 0 && START.ui.UiIdle? && START.decode.NoThread?
  {}

  lemma EmptyBounded(s: State)
    requires s.conns == [] && s.reapers == 0 && s.ui.UiIdle? && s.decode.NoThread?
    ensures Bounded(s)
  {
    hide Tally;
    NoneCounted(Reaping);
    NoneCounted(Open);
  }

  lemma NoneCounted(kind: Kind)
    ensures Tally([], kind) == 0
  {}

  lemma BoundedMeans(s: State)
    requires Inv(s) && Bounded(s)
    ensures Tally(s.conns, Open) <= MAX_REAPERS + MAX_SOURCE_HOPS == 6
    ensures s.reapers == Tally(s.conns, Reaping) + Spawning(s)
  {
    hide OwnedIn, HandedIn, AbortedFirst, Dated, Tally;
    LimitAtMost(s);
  }

  /** In every interleaving the reaper counter is exact, and at most MAX_REAPERS + MAX_SOURCE_HOPS = 6
      connections are live, being swapped or being reaped. */
  lemma AtMostSixOpen(s: State)
    requires Reachable(s)
    ensures Tally(s.conns, Open) <= MAX_REAPERS + MAX_SOURCE_HOPS == 6
    ensures s.reapers == Tally(s.conns, Reaping) + Spawning(s)
  {
    hide *;
    var acts := RunTo(s);
    StartInv();
    StartBounded();
    RunKeepsInv(START, acts, s);
    RunKeepsBounded(START, acts, s);
    BoundedMeans(s);
  }
}
