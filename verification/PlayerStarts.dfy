/** What pressing play, following a playlist and playing on lead to in src/player.c, however the other
    threads are scheduled: the new connection is installed and read unless four are still closing. */
module PlayerStarts {
  import opened Prelude
  import opened Player
  import opened PlayerBounds
  import opened PlayerSafety

  // ---- when play is refused -----------------------------------------------------------------------

  // The connections whose reaper has started and not finished.
  function Closing(conns: seq<Conn>): set<ConnId> {
    set c: ConnId | c < |conns| && conns[c].reaper in {Spawned, SourceStopped, RingFreed, MemoryFreed}
  }

  lemma {:induction false} TallyCounts(conns: seq<Conn>)
    ensures Tally(conns, Reaping) == |Closing(conns)|
  {
    if conns != [] {
      var n := |conns| - 1;
      TallyCounts(conns[..n]);
      if Is(conns[n], Reaping) {
        assert Closing(conns) == Closing(conns[..n]) + {n};
      } else {
        assert Closing(conns) == Closing(conns[..n]);
      }
    }
  }

  lemma ReapersCounted(s: State)
    requires Reachable(s) && s.ui.PlayCheck?
    ensures s.reapers == |Closing(s.conns)|
  {
    AtMostSixOpen(s);
    ReachableInv(s);
    TallyCounts(s.conns);
    hide OwnedIn, HandedIn, AbortedFirst, Dated, Tally, Closing, Limit;
  }

  /** With an audio port and an URL, play goes on to start the connection exactly if fewer than four
      connections are still being closed, and otherwise says so and gives up. */
  lemma PlayAdmittedIff(s: State, s': State)
    requires Reachable(s) && s.ui.PlayCheck? && Step(s, UiStep(true)) == Some(s')
    ensures |Closing(s.conns)| < 4 <==> s'.ui.PlayStart?
    ensures |Closing(s.conns)| < 4 ==> s' == s.(ui := PlayStart(s.ui.url, s.gen))
    ensures |Closing(s.conns)| >= 4 ==>
      s' == s.(ui := UiIdle, status := s.status.(state := Failed, error := "Too many connections still closing"))
  {
    ReapersCounted(s);
    ReachableInv(s);
    hide OwnedIn, HandedIn, AbortedFirst, Closing;
  }

  // ---- from play to the decode thread -----------------------------------------------------------------

  // What player_play has put in the status before its connection is started.
  function Fresh(url: string): Status {
    Status(Connecting, url, "", 0, "", "")
  }

  // c is the newest connection, of the current generation, and untouched; all the status tells comes from it.
  predicate New(s: State, c: ConnId, url: string) {
    && c + 1 == |s.conns| && s.conns[c] == Conn(s.gen, Live, false, false, false, 0, NoReaper)
    && s.status.url == url && s.status.error == "" && (s.status.state.Connecting? || s.status.state.Buffering?)
  }

  // The UI thread is on its way to play url.
  predicate Coming(s: State, url: string) {
    match s.ui
    case StopDetach(after) => after == ToPlay(url)
    case StopAbort(after, _) => after == ToPlay(url)
    case StopJoin(after, _) => after == ToPlay(url)
    case StopClear(after, _) => after == ToPlay(url)
    case StopRelease(after, _, _) => after == ToPlay(url)
    case PlayBegin(u) => u == url
    case PlayStatus(u) => u == url
    case PlayCheck(u, gen) => u == url && gen == s.gen && s.status == Fresh(url)
    case PlayStart(u, gen) => u == url && gen == s.gen && s.status == Fresh(url)
    case PlayRing(c) => New(s, c, url)
    case PlayInstall(c) => New(s, c, url) && s.ring == Some(c)
    case PlaySpawn(c) => New(s, c, url) && s.conn == s.source == s.ring == Some(c)
    case _ => false
  }

  // How many steps of the UI thread are left.
  function UiLeft(ui: Ui): nat {
    match ui
    case StopDetach(_) => 14
    case StopAbort(_, _) => 13
    case StopJoin(_, _) => 12
    case StopClear(_, _) => 11
    case StopRelease(_, _, at) => if at.Abort? then 10 else if at.Count? then 9 else 8
    case PlayBegin(_) => 7
    case PlayStatus(_) => 6
    case PlayCheck(_, _) => 5
    case PlayStart(_, _) => 4
    case PlayRing(_) => 3
    case PlayInstall(_) => 2
    case PlaySpawn(_) => 1
    case _ => 0
  }

  // The decode thread has just been started on a new connection, which is installed.
  predicate Reading(s: State, url: string) {
    && s.ui.PlayRunning? && !s.stop && s.conn.Some? && New(s, s.conn.value, url)
    && s.source == s.ring == s.conn && s.decode == Streaming(s.conn.value, 0, Start)
  }

  // Play has been refused between these two states.
  predicate Refused(s: State, s': State, url: string) {
    && s.ui.PlayCheck? && |Closing(s.conns)| >= 4 && s'.ui.UiIdle?
    && s'.conns == s.conns && s'.conn.None? && s'.decode.NoThread?
    && s'.status == Status(Failed, url, "", 0, "", "Too many connections still closing")
  }

  lemma StopComes(s: State, url: string, s': State)
    requires Reachable(s) && Coming(s, url) && UiLeft(s.ui) > 7 && UiNext(s, true) == Some(s')
    ensures Coming(s', url) && UiLeft(s'.ui) < UiLeft(s.ui)
  {
    hide OwnedIn, HandedIn, AbortedFirst, Dated;
    ReachableInv(s);
    Holders(s);
  }

  // Until the new connection is started there is no decode thread, and nothing is installed.
  lemma NobodyReads(s: State)
    requires Reachable(s) && (s.ui.PlayCheck? || Starting(s.ui))
    ensures !s.stop && (!s.ui.PlayRunning? ==> s.decode.NoThread?)
    ensures s.ui.PlayCheck? || s.ui.PlayStart? || s.ui.PlayRing? ==> s.conn.None?
    ensures s.source == s.conn
  {
    ReachableInv(s);
    hide OwnedIn, HandedIn, AbortedFirst, Dated;
  }

  lemma PlayComes(s: State, url: string, s': State)
    requires Reachable(s) && Coming(s, url) && UiLeft(s.ui) <= 7 && UiNext(s, true) == Some(s')
    ensures (Coming(s', url) && UiLeft(s'.ui) < UiLeft(s.ui)) || Reading(s', url) || Refused(s, s', url)
  {
    hide Closing, Reachable, StopNext, StopEndNext;
    if s.ui.PlayCheck? { PlayAdmittedIff(s, s'); }
    if s.ui.PlayCheck? || Starting(s.ui) { NobodyReads(s); }
  }

  // No callback lands between the end of a stop and the start of the next connection.
  lemma NobodyIsHeard(s: State, c: ConnId)
    requires Reachable(s) && (s.ui.StopRelease? || s.ui.PlayCheck? || s.ui.PlayStart?) && c < |s.conns|
    ensures s.conns[c].gen < s.gen
  {
    ReachableInv(s);
    hide OwnedIn, HandedIn, AbortedFirst, Scheduled;
  }

  lemma OthersLetCome(s: State, url: string, a: Action, s': State)
    requires Reachable(s) && Coming(s, url) && !a.UiStep? && Step(s, a) == Some(s')
    ensures s'.ui == s.ui && Coming(s', url)
  {
    if a.DecodeStep? {
      DecodeKeepsUi(s, a.choice);
      DecodeLetsCome(s, url, a.choice, s');
    } else {
      hide Reachable;
      if a.WorkerCallback? && (s.ui.PlayCheck? || s.ui.PlayStart?) && a.from < |s.conns| { NobodyIsHeard(s, a.from); }
    }
  }

  lemma DecodeLetsCome(s: State, url: string, choice: Choice, s': State)
    requires Reachable(s) && Coming(s, url) && DecodeNext(s, choice) == Some(s')
    ensures Coming(s', url)
  {
    DecodeKeepsUi(s, choice);
    hide PlaybackNext, InstallNext, RetireNext, ExitNext, Reachable;
    if s.ui.PlayCheck? || Starting(s.ui) { NobodyReads(s); }
  }

  function UiSteps(acts: seq<Action>): nat {
    if acts == [] then 0 else (if acts[0].UiStep? then 1 else 0) + UiSteps(acts[1..])
  }

  // In this run the new connection comes to be read, or is refused.
  predicate Arrives(s: State, url: string, acts: seq<Action>)
    decreases |acts|
  {
    && acts != [] && Step(s, acts[0]).Some?
    && var next := Step(s, acts[0]).value;
       Reading(next, url) || Refused(s, next, url) || Arrives(next, url, acts[1..])
  }

  lemma {:induction false} ComesUntilArrived(s: State, url: string, acts: seq<Action>)
    requires Reachable(s) && Coming(s, url) && Run(s, acts).Some? && UiStep(false) !in acts
    ensures Arrives(s, url, acts) || (UiLeft(s.ui) > 0 && UiSteps(acts) < UiLeft(s.ui))
    decreases |acts|
  {
    assert UiLeft(s.ui) > 0;
    if acts != [] {
      var next := Step(s, acts[0]).value;
      ReachableStep(s, acts[0], next);
      if acts[0].UiStep? {
        assert acts[0] == UiStep(true);
        if UiLeft(s.ui) > 7 { StopComes(s, url, next); } else { PlayComes(s, url, next); }
      } else {
        OthersLetCome(s, url, acts[0], next);
      }
      hide Step, Reachable, Coming, UiLeft, Reading, Refused;
      if Coming(next, url) { ComesUntilArrived(next, url, acts[1..]); }
    }
  }

  /** Whatever is being played and however the threads are scheduled: within fourteen steps of the UI
      thread that all go well, play has installed the new connection and started the decode thread on
      it, unless it found four connections still closing. */
  lemma PlayReads(s: State, url: string, acts: seq<Action>)
    requires Reachable(s) && s.ui.UiIdle? && Run(s, [CallPlay(url)] + acts).Some?
    requires UiStep(false) !in acts && UiSteps(acts) >= 14
    ensures Arrives(Step(s, CallPlay(url)).value, url, acts)
  {
    var next := Step(s, CallPlay(url)).value;
    assert ([CallPlay(url)] + acts)[1..] == acts;
    ReachableStep(s, CallPlay(url), next);
    hide Reachable, Arrives;
    ComesUntilArrived(next, url, acts);
  }

  // ---- from stop to idle --------------------------------------------------------------------------------

  // Nothing is installed, nobody decodes, and the status says nothing but that.
  predicate Silent(s: State) {
    s.conn.None? && s.source.None? && s.ring.None? && s.decode.NoThread? && s.status == Status(Idle, "", "", 0, "", "")
  }

  // The UI thread is on its way to stop.
  predicate Halting(s: State) {
    match s.ui
    case StopDetach(after) => after.ToIdle?
    case StopAbort(after, _) => after.ToIdle?
    case StopJoin(after, _) => after.ToIdle?
    case StopClear(after, _) => after.ToIdle?
    case StopRelease(after, _, _) => after.ToIdle? && Silent(s)
    case _ => false
  }

  // In this run the player comes to be idle and silent.
  predicate Halts(s: State, acts: seq<Action>)
    decreases |acts|
  {
    && acts != [] && Step(s, acts[0]).Some?
    && var next := Step(s, acts[0]).value;
       (next.ui.UiIdle? && Silent(next)) || Halts(next, acts[1..])
  }

  lemma UiHalts(s: State, ok: bool, s': State)
    requires Reachable(s) && Halting(s) && UiNext(s, ok) == Some(s')
    ensures (Halting(s') && UiLeft(s'.ui) < UiLeft(s.ui)) || (s'.ui.UiIdle? && Silent(s'))
  {
    hide OwnedIn, HandedIn, AbortedFirst, Dated;
    ReachableInv(s);
    Holders(s);
  }

  lemma OthersLetHalt(s: State, a: Action, s': State)
    requires Reachable(s) && Halting(s) && !a.UiStep? && Step(s, a) == Some(s')
    ensures Halting(s') && s'.ui == s.ui
  {
    if a.DecodeStep? {
      hide PlaybackNext, InstallNext, RetireNext, ExitNext, Reachable;
      DecodeKeepsUi(s, a.choice);
    } else {
      hide Reachable;
      if a.WorkerCallback? && s.ui.StopRelease? && a.from < |s.conns| { NobodyIsHeard(s, a.from); }
    }
  }

  lemma {:induction false} HaltsInTime(s: State, acts: seq<Action>)
    requires Reachable(s) && Halting(s) && Run(s, acts).Some?
    ensures Halts(s, acts) || (UiLeft(s.ui) > 7 && UiSteps(acts) < UiLeft(s.ui) - 7)
    decreases |acts|
  {
    assert UiLeft(s.ui) > 7;
    if acts != [] {
      var next := Step(s, acts[0]).value;
      ReachableStep(s, acts[0], next);
      if acts[0].UiStep? {
        UiHalts(s, acts[0].ok, next);
      } else {
        OthersLetHalt(s, acts[0], next);
      }
      hide Step, Reachable, Halting, UiLeft, Silent;
      if Halting(next) { HaltsInTime(next, acts[1..]); }
    }
  }

  /** Whatever is being played and however the threads are scheduled: within seven steps of the UI
      thread, stop has left the player idle, with no connection, no decode thread and a cleared status. */
  lemma StopSilences(s: State, acts: seq<Action>)
    requires Reachable(s) && s.ui.UiIdle? && Run(s, [CallStop] + acts).Some? && UiSteps(acts) >= 7
    ensures Halts(Step(s, CallStop).value, acts)
  {
    var next := Step(s, CallStop).value;
    assert ([CallStop] + acts)[1..] == acts;
    ReachableStep(s, CallStop, next);
    hide Reachable, Halts;
    HaltsInTime(next, acts);
  }

  /** What the connection now heard tells of its body is shown, and the wait for it is over; a title
      leaves everything else as it was. */
  lemma NewsIsShown(s: State, c: ConnId, contentType: string, http: int, text: string)
    requires HasWorker(s, c) && s.conns[c].gen == s.gen && s.status.state.Connecting?
    ensures Step(s, WorkerCallback(c, OnHeaders(contentType, http))) ==
            Some(s.(status := Status(Buffering, s.status.url, contentType, http, s.status.title, s.status.error)))
    ensures Step(s, WorkerCallback(c, OnHlsReady(true, http))) ==
            Some(s.(status := Status(Buffering, s.status.url, "HLS (AAC)", http, s.status.title, s.status.error)))
    ensures Step(s, WorkerCallback(c, OnHlsReady(false, http))) ==
            Some(s.(status := Status(Buffering, s.status.url, "HLS (MPEG audio)", http, s.status.title, s.status.error)))
    ensures Step(s, WorkerCallback(c, OnTitle(text))) == Step(s, WorkerCallback(c, OnHlsNote(text))) ==
            Some(s.(status := s.status.(title := text)))
  {}

  // ---- following a playlist ---------------------------------------------------------------------------

  // No call from the user interface, and no step of the decode thread that fails.
  predicate Smooth(a: Action) {
    !a.CallPlay? && !a.CallStop? && (a.DecodeStep? ==> a.choice == Proceed(true))
  }

  // What a switch makes of the status: what the old source said of its body is gone, its title and error stay.
  function Switched(st: Status, url: Option<string>): Status {
    Status(Connecting, if url.Some? then url.value else st.url, "", 0, st.title, st.error)
  }

  // c is the newest connection, of the current generation, untouched and installed.
  predicate Installed(s: State, c: ConnId, url: string) {
    && c + 1 == |s.conns| && s.conns[c] == Conn(s.gen, Live, false, false, false, 0, NoReaper)
    && s.conn == s.source == s.ring == Some(c)
    && s.status.url == url && (s.status.state.Connecting? || s.status.state.Buffering?)
  }

  // The decode thread is on its way from old to another source; st is what the switch made of the status.
  predicate Following(s: State, was: ConnId, hops: nat, st: Status) {
    !s.stop && st.state.Connecting? &&
    match s.decode
    case SwitchAlloc(c, h, gen) => c == was && h == hops && gen == s.gen && s.status == st
    case SwitchInstall(c, h, made) =>
      && c == was && h == hops && s.status == st
      && made + 1 == |s.conns| && s.conns[made] == Conn(s.gen, NotStarted, false, false, false, 0, NoReaper)
    case SwitchRelease(c, h, dead, _) => h == hops && dead == was && Installed(s, c, st.url)
    case _ => false
  }

  // How many steps of the decode thread are left.
  function SwitchLeft(d: Decode): nat {
    match d
    case SwitchAlloc(_, _, _) => 5
    case SwitchInstall(_, _, _) => 4
    case SwitchRelease(_, _, _, at) => if at.Abort? then 3 else if at.Count? then 2 else 1
    case _ => 0
  }

  // It has arrived: the new source is installed and read, and the old one is with its reaper.
  predicate TakenOver(s: State, was: ConnId, hops: nat, st: Status) {
    && !s.stop && s.conn.Some? && s.decode == Streaming(s.conn.value, hops, PreTest)
    && Installed(s, s.conn.value, st.url) && was < s.conn.value && s.conns[was].reaper.Spawned?
  }

  // Nobody presses anything, so the UI thread is at rest, or player_play is about to return.
  lemma UiAtRest(s: State)
    requires Reachable(s) && !s.decode.NoThread? && !s.stop
    ensures s.ui.UiIdle? || s.ui.PlayRunning?
  {
    ReachableInv(s);
    hide OwnedIn, HandedIn, AbortedFirst, Dated;
  }

  // The connection that is switched from is not the one switched to.
  lemma Apart(s: State)
    requires Reachable(s) && !s.stop
    ensures s.decode.SwitchInstall? && s.decode.made < |s.conns| ==>
      s.decode.cur < |s.conns| && s.decode.cur != s.decode.made
    ensures s.decode.SwitchRelease? ==>
      s.decode.dead < |s.conns| && s.decode.dead != s.decode.cur && s.conns[s.decode.dead].source.Live?
  {
    ReachableInv(s);
    hide AbortedFirst, Dated;
    Holders(s);
    hide OwnedIn, HandedIn;
  }

  lemma SwitchFollows(s: State, was: ConnId, hops: nat, st: Status, s': State)
    requires Reachable(s) && Following(s, was, hops, st) && DecodeNext(s, Proceed(true)) == Some(s')
    ensures (Following(s', was, hops, st) && SwitchLeft(s'.decode) < SwitchLeft(s.decode)) || TakenOver(s', was, hops, st)
  {
    Apart(s);
    hide Reachable;
  }

  // No callback lands before the new source is started.
  lemma SwitchIsSilent(s: State, was: ConnId, hops: nat, st: Status, c: ConnId)
    requires Reachable(s) && Following(s, was, hops, st) && !s.decode.SwitchRelease? && HasWorker(s, c)
    ensures s.conns[c].gen < s.gen
  {
    hide OwnedIn, HandedIn, AbortedFirst, Scheduled;
    ReachableInv(s);
  }

  lemma OthersLetFollow(s: State, was: ConnId, hops: nat, st: Status, a: Action, s': State)
    requires Reachable(s) && Following(s, was, hops, st) && Smooth(a) && !a.DecodeStep? && Step(s, a) == Some(s')
    ensures Following(s', was, hops, st) && s'.decode == s.decode
  {
    hide Reachable, StopNext, StopEndNext;
    UiAtRest(s);
    if a.WorkerCallback? && HasWorker(s, a.from) && !s.decode.SwitchRelease? { SwitchIsSilent(s, was, hops, st, a.from); }
  }

  // In this run the new source comes to be installed and read.
  predicate Switches(s: State, was: ConnId, hops: nat, st: Status, acts: seq<Action>)
    decreases |acts|
  {
    && acts != [] && Step(s, acts[0]).Some?
    && var next := Step(s, acts[0]).value;
       TakenOver(next, was, hops, st) || Switches(next, was, hops, st, acts[1..])
  }

  lemma {:induction false} FollowsUntilTakenOver(s: State, was: ConnId, hops: nat, st: Status, acts: seq<Action>)
    requires Reachable(s) && Following(s, was, hops, st) && Run(s, acts).Some?
    requires forall i | 0 <= i < |acts| :: Smooth(acts[i])
    ensures Switches(s, was, hops, st, acts) || DecodeSteps(acts) < SwitchLeft(s.decode)
    decreases |acts|
  {
    assert SwitchLeft(s.decode) > 0;
    if acts != [] {
      var next := Step(s, acts[0]).value;
      ReachableStep(s, acts[0], next);
      if acts[0].DecodeStep? {
        SwitchFollows(s, was, hops, st, next);
      } else {
        OthersLetFollow(s, was, hops, st, acts[0], next);
      }
      hide Step, Reachable, Following, SwitchLeft, TakenOver;
      if Following(next, was, hops, st) { FollowsUntilTakenOver(next, was, hops, st, acts[1..]); }
    }
  }

  /** However the threads are scheduled: a switch begins by clearing what the status tells of the old
      source, and within five further steps of the decode thread that go well, unless something is
      pressed, the new source is installed and read and the old one is with its reaper. */
  lemma PlaylistFollowed(s: State, acts: seq<Action>)
    requires Reachable(s) && s.decode.SwitchGen? && !s.stop && Run(s, [DecodeStep(Proceed(true))] + acts).Some?
    requires forall i | 0 <= i < |acts| :: Smooth(acts[i])
    ensures var next := Step(s, DecodeStep(Proceed(true))).value;
      && next.gen == s.gen + 1 && next.conns == s.conns && next.conn == s.conn && next.status == Switched(s.status, s.decode.url)
      && (DecodeSteps(acts) >= 5 ==> Switches(next, s.decode.cur, s.decode.hops, Switched(s.status, s.decode.url), acts))
  {
    var next := Step(s, DecodeStep(Proceed(true))).value;
    assert ([DecodeStep(Proceed(true))] + acts)[1..] == acts;
    ReachableStep(s, DecodeStep(Proceed(true)), next);
    hide Reachable, Switches;
    FollowsUntilTakenOver(next, s.decode.cur, s.decode.hops, Switched(s.status, s.decode.url), acts);
  }

  // ---- playing on -----------------------------------------------------------------------------------------

  // decode_thread fills its buffer from c, or decodes and plays what c brings; c is installed and not aborted.
  predicate Playing(s: State, c: ConnId) {
    && !s.stop && s.decode.Streaming? && s.decode.cur == c && !s.decode.point.Closed? && !InEnd(s.decode.point)
    && s.conn == Some(c) && c < |s.conns| && !s.conns[c].aborted
  }

  // Nothing is pressed, no read says the ring is closed, the bytes are taken for audio, and no
  // decoding fails or asks to stop.
  predicate Healthy(s: State, a: Action) {
    && !a.CallPlay? && !a.CallStop? && (a.DecodeStep? ==> !a.choice.Fail? && !a.choice.Leave?)
    && (a.DecodeStep? && AtPoint(s, Classify) ==> a.choice.StartDecoding?)
  }

  predicate HealthyRun(s: State, acts: seq<Action>)
    decreases |acts|
  {
    acts == [] ||
    (Healthy(s, acts[0]) && Step(s, acts[0]).Some? && HealthyRun(Step(s, acts[0]).value, acts[1..]))
  }

  // The reads that bring bytes, and the times bytes are decoded.
  function Reads(s: State, acts: seq<Action>): nat
    decreases |acts|
  {
    if acts == [] || Step(s, acts[0]).None? then 0
    else One(AtPoint(s, Read) && acts[0] == DecodeStep(Proceed(true))) + Reads(Step(s, acts[0]).value, acts[1..])
  }

  function Feeds(s: State, acts: seq<Action>): nat
    decreases |acts|
  {
    if acts == [] || Step(s, acts[0]).None? then 0
    else One(AtPoint(s, Feed) && acts[0].DecodeStep?) + Feeds(Step(s, acts[0]).value, acts[1..])
  }

  predicate AtPoint(s: State, at: Point) {
    s.decode.Streaming? && s.decode.point == at
  }

  lemma ReadsItsOwn(s: State, c: ConnId)
    requires Reachable(s) && Playing(s, c)
    ensures s.ring == Some(c) && !RingAborted(s)
  {
    ReachableInv(s);
    hide OwnedIn, HandedIn, AbortedFirst, Dated, InEnd;
  }

  lemma OpeningPlaysOn(s: State, choice: Choice)
    requires s.decode.Streaming? && !s.stop && !RingAborted(s) && Healthy(s, DecodeStep(choice)) && InOpening(s.decode.point)
    ensures OpeningNext(s, choice).Some? && OpeningNext(s, choice).value.decode.Streaming?
    ensures var at := OpeningNext(s, choice).value.decode.point; InOpening(at) || at == First
  {
    hide WithError, RingAborted;
  }

  lemma LatePlaysOn(s: State, choice: Choice)
    requires s.decode.Streaming? && InLate(s.decode.point)
    ensures LateNext(s, choice).Some? && LateNext(s, choice).value.decode.Streaming?
    ensures var at := LateNext(s, choice).value.decode.point; InLate(at) || at == Progress
  {}

  lemma DecodePlaysOn(s: State, c: ConnId, choice: Choice, s': State)
    requires Reachable(s) && Playing(s, c) && Healthy(s, DecodeStep(choice)) && DecodeNext(s, choice) == Some(s')
    ensures Playing(s', c)
    ensures AtPoint(s', Feed) <==> AtPoint(s, Read) && choice == Proceed(true)
  {
    hide Reachable, RingAborted, OpeningNext, LateNext, EndNext, WithError;
    ReadsItsOwn(s, c);
    PlaybackMoves(s, choice);
    if InOpening(s.decode.point) { OpeningPlaysOn(s, choice); }
    if InLate(s.decode.point) { LatePlaysOn(s, choice); }
  }

  lemma OthersLetPlay(s: State, c: ConnId, a: Action, s': State)
    requires Reachable(s) && Playing(s, c) && Healthy(s, a) && !a.DecodeStep? && Step(s, a) == Some(s')
    ensures Playing(s', c) && s'.decode == s.decode
  {
    hide Reachable, InEnd, StopNext, StopEndNext, Called;
    UiAtRest(s);
  }

  /** However the threads are scheduled: until something is pressed, the ring closes, the bytes turn out
      not to be audio or decoding fails, the decode thread goes on with the same connection, and
      whatever a read brings is decoded once before the next read. */
  lemma {:induction false} PlaysOn(s: State, c: ConnId, acts: seq<Action>, s': State)
    requires Reachable(s) && Playing(s, c) && Run(s, acts) == Some(s') && HealthyRun(s, acts)
    ensures Playing(s', c)
    ensures One(AtPoint(s, Feed)) + Reads(s, acts) == Feeds(s, acts) + One(AtPoint(s', Feed))
    decreases |acts|
  {
    if acts != [] {
      var next := Step(s, acts[0]).value;
      ReachableStep(s, acts[0], next);
      if acts[0].DecodeStep? {
        DecodePlaysOn(s, c, acts[0].choice, next);
      } else {
        OthersLetPlay(s, c, acts[0], next);
      }
      hide Step, Reachable, Playing, Healthy;
      PlaysOn(next, c, acts[1..], s');
    }
  }
}
