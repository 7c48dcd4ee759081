/** src/player.c: who owns a connection, and when. Four kinds of threads share one "current
    connection": the UI thread (play, stop), the decode thread, the network worker inside each
    live source, and the detached reapers. Every critical section, and every unlocked access to
    shared memory that matters here, is one atomic step; a run is any interleaving of such steps. */
module Player {
  import opened Prelude

  const MAX_REAPERS := 4
  const MAX_SOURCE_HOPS := 2

  type ConnId = nat

  // ---- state ----------------------------------------------------------------------------------

  datatype PlayState = Idle | Connecting | Buffering | Playing | Failed

  datatype Status = Status(state: PlayState, url: string, contentType: string, httpStatus: int,
                           title: string, error: string)

  const CLEARED := Status(Idle, "", "", 0, "", "")

  // A source has a worker thread from the moment it is started until it is stopped and joined.
  datatype Source = NotStarted | Live | Joined

  // How far the detached thread of one retired connection has come (reap_thread).
  datatype Reaper = NoReaper | Spawned | SourceStopped | RingFreed | MemoryFreed | Counted

  datatype Conn = Conn(gen: nat, source: Source, aborted: bool, ringFreed: bool, freed: bool,
                       releases: nat, reaper: Reaper)

  // The three steps of conn_release.
  datatype Release = Abort | Count | Spawn

  // Where player_stop returns to: its own caller, player_play, or play's failed thread creation.
  datatype After = ToIdle | ToPlay(url: string) | ToSpawnError

  datatype Ui =
    | UiIdle
    | StopDetach(after: After)
    | StopAbort(after: After, taken: Option<ConnId>)
    | StopJoin(after: After, taken: Option<ConnId>)
    | StopClear(after: After, taken: Option<ConnId>)
    | StopRelease(after: After, dead: ConnId, at: Release)
    | PlayBegin(url: string)
    | PlayStatus(url: string)
    | PlayCheck(url: string, gen: nat)
    | PlayStart(url: string, gen: nat)
    | PlayRing(made: ConnId)
    | PlayInstall(made: ConnId)
    | PlaySpawn(made: ConnId)
    | PlayRunning
    | SpawnFailed

  // Where decode_thread is while it reads its source. Each test of g_stop, each call on the ring and each
  // question to the source is a point of its own, so a stop can come between any two of them.
  datatype Point =
    // the buffers allocated; then the loop that waits for PREBUFFER_BYTES, the reads that take them out,
    // and what they turn out to be
    | Start | PreTest | PreCount | PreAsk | PreBody | PreLeft | Fill | FillLeft | Report | Classify
    // report_stream_end
    | EndTest | EndAsk | EndLeft | EndResult
    // the decoder fed with them; then the playing loop, and inside it the wait for REBUFFER_BYTES
    | First | LoopTest | Read | Closed | Feed
    | LateAsk | LateTest | LateCount | LateAgain | LateBody | Progress

  datatype Decode =
    | NoThread
    | Streaming(cur: ConnId, hops: nat, point: Point)
    | SwitchGen(cur: ConnId, hops: nat, url: Option<string>)
    | SwitchAlloc(cur: ConnId, hops: nat, gen: nat)
    | SwitchInstall(cur: ConnId, hops: nat, made: ConnId)
    | SwitchDiscard(cur: ConnId, hops: nat, made: ConnId, failed: bool)
    | SwitchRelease(cur: ConnId, hops: nat, dead: ConnId, at: Release)
    | Exiting(cur: ConnId)
    | ExitRelease(dead: ConnId, at: Release)
    | Finished

  // conn, source and ring stand for g_conn, g_http/g_hls and g_rb.
  datatype State = State(conns: seq<Conn>, gen: nat, stop: bool,
                         conn: Option<ConnId>, source: Option<ConnId>, ring: Option<ConnId>,
                         reapers: int, threadRunning: bool, status: Status,
                         ui: Ui, decode: Decode)

  const START := State([], 0, false, None, None, None, 0, false, CLEARED, UiIdle, NoThread)

  // ---- actions ----------------------------------------------------------------------------------

  datatype Callback =
    | OnHeaders(contentType: string, httpStatus: int)
    | OnTitle(title: string)
    | OnHlsReady(aac: bool, httpStatus: int)
    | OnHlsNote(text: string)

  // What the decode thread does next where the code leaves it a choice.
  datatype Choice =
    | Show(next: Status)            // progress reported, or playing begun
    | StartDecoding
    | Redirect(url: Option<string>) // follow a playlist (Some) or hand over to the HLS worker (None)
    | Fail(error: string)
    | Leave
    | Proceed(ok: bool)             // ok: go on waiting or reading, or an allocation or thread start worked

  datatype Action =
    | CallPlay(url: string)
    | CallStop
    | UiStep(ok: bool)
    | DecodeStep(choice: Choice)
    | ReapStep(dead: ConnId)
    | WorkerCallback(from: ConnId, call: Callback)
    | WorkerWrite(from: ConnId)

  // set_error: dropped once a stop is under way.
  function WithError(s: State, error: string): State {
    s.(status := if s.stop then s.status else s.status.(state := Failed, error := error))
  }

  function WithConn(s: State, c: ConnId, conn: Conn): State
    requires c < |s.conns|
  {
    s.(conns := s.conns[c := conn])
  }

  function Handed(s: State, c: ConnId): State
    requires c < |s.conns|
  {
    WithConn(s, c, s.conns[c].(releases := s.conns[c].releases + 1))
  }

  // ---- conn_release ------------------------------------------------------------------------------

  // The effect of one step of conn_release(c) on everything but the caller's program counter.
  function Releasing(s: State, c: ConnId, at: Release): State
    requires c < |s.conns|
  {
    var k := s.conns[c];
    match at
    case Abort => WithConn(s, c, k.(aborted := true))
    case Count =>
      if k.source.NotStarted? then WithConn(s, c, k.(ringFreed := true, freed := true))
      else s.(reapers := s.reapers + 1)
    case Spawn => WithConn(s, c, k.(reaper := Spawned))
  }

  // The next step of conn_release(c), or None when it returns.
  function NextRelease(s: State, c: ConnId, at: Release): Option<Release>
    requires c < |s.conns|
  {
    match at
    case Abort => Some(Count)
    case Count => if s.conns[c].source.NotStarted? then None else Some(Spawn)
    case Spawn => None
  }

  // ---- the UI thread -------------------------------------------------------------------------------

  function Return(after: After): Ui {
    match after
    case ToIdle => UiIdle
    case ToPlay(url) => PlayBegin(url)
    case ToSpawnError => SpawnFailed
  }

  // player_stop, as long as the decode thread may be running
  function StopNext(s: State): Option<State> {
    match s.ui
    case StopDetach(after) =>
      Some(s.(conn := None, source := None, ui := StopAbort(after, s.conn)))
    case StopAbort(after, taken) =>
      (match taken
       case Some(c) =>
         if c < |s.conns| then
           Some(WithConn(s, c, s.conns[c].(aborted := true)).(ui := StopJoin(after, taken)))
         else None
       case None => Some(s.(ui := StopJoin(after, taken))))
    case StopJoin(after, taken) =>
      if !s.threadRunning then Some(s.(ui := StopClear(after, taken)))
      else if s.decode.Finished? then
        Some(s.(decode := NoThread, threadRunning := false, ui := StopClear(after, taken)))
      else None
    case _ => None
  }

  // player_stop, once the decode thread is gone
  function StopEndNext(s: State): Option<State> {
    match s.ui
    case StopClear(after, taken) =>
      var s' := s.(status := CLEARED, gen := s.gen + 1, ring := None);
      (match taken
       case Some(c) =>
         if c < |s.conns| then Some(Handed(s', c).(ui := StopRelease(after, c, Abort))) else None
       case None => Some(s'.(ui := Return(after))))
    case StopRelease(after, c, at) =>
      if c >= |s.conns| then None
      else
        Some(Releasing(s, c, at).(ui := match NextRelease(s, c, at)
                                        case Some(next) => StopRelease(after, c, next)
                                        case None => Return(after)))
    case _ => None
  }

  // player_play, after its call of player_stop
  function PlayNext(s: State, ok: bool): Option<State> {
    match s.ui
    case PlayBegin(url) => Some(s.(stop := false, ui := PlayStatus(url)))
    case PlayStatus(url) =>
      Some(s.(status := CLEARED.(state := Connecting, url := url), ui := PlayCheck(url, s.gen)))
    case PlayCheck(url, gen) =>
      if !ok then Some(WithError(s, "no audio port or no URL").(ui := UiIdle))
      else if s.reapers >= MAX_REAPERS then
        Some(WithError(s, "Too many connections still closing").(ui := UiIdle))
      else Some(s.(ui := PlayStart(url, gen)))
    case SpawnFailed =>
      Some(s.(status := s.status.(state := Failed, error := "Could not start decode thread"), ui := UiIdle))
    case _ => None
  }

  // player_play, from the start of the new source
  function StartNext(s: State, ok: bool): Option<State> {
    match s.ui
    case PlayStart(url, gen) =>
      if !ok then Some(WithError(s, "Could not start connection").(ui := UiIdle))
      else Some(s.(conns := s.conns + [Conn(gen, Live, false, false, false, 0, NoReaper)],
                   ui := PlayRing(|s.conns|)))
    case PlayRing(c) => Some(s.(ring := Some(c), ui := PlayInstall(c)))
    case PlayInstall(c) => Some(s.(conn := Some(c), source := Some(c), ui := PlaySpawn(c)))
    case PlaySpawn(c) =>
      if ok then Some(s.(decode := Streaming(c, 0, Start), ui := PlayRunning))
      else Some(s.(stop := true, ui := StopDetach(ToSpawnError)))
    case PlayRunning => Some(s.(threadRunning := true, ui := UiIdle))
    case _ => None
  }

  predicate Stopping(ui: Ui) {
    ui.StopDetach? || ui.StopAbort? || ui.StopJoin?
  }

  predicate Starting(ui: Ui) {
    ui.PlayStart? || ui.PlayRing? || ui.PlayInstall? || ui.PlaySpawn? || ui.PlayRunning?
  }

  function UiNext(s: State, ok: bool): Option<State> {
    if Stopping(s.ui) then StopNext(s)
    else if s.ui.StopClear? || s.ui.StopRelease? then StopEndNext(s)
    else if Starting(s.ui) then StartNext(s, ok)
    else PlayNext(s, ok)
  }

  // ---- the decode thread ----------------------------------------------------------------------------

  // All a step of decode_thread changes there: the status, and where it stands.
  datatype Move = Move(status: Status, decode: Decode)

  function Onto(s: State, at: Point): Move
    requires s.decode.Streaming?
  {
    Move(s.status, s.decode.(point := at))
  }

  // "goto out", and the same with an error set first
  function Out(s: State): Move
    requires s.decode.Streaming?
  {
    Move(s.status, Exiting(s.decode.cur))
  }

  function OutWith(s: State, error: string): Move
    requires s.decode.Streaming?
  {
    Out(s).(status := WithError(s, error).status)
  }

  function Showing(s: State, choice: Choice, at: Point): Move
    requires s.decode.Streaming?
  {
    Onto(s, at).(status := if choice.Show? then choice.next else s.status)
  }

  // rb_abort has been called on the ring that is read; rb_read then returns -1.
  predicate RingAborted(s: State) {
    s.ring.Some? && s.ring.value < |s.conns| && s.conns[s.ring.value].aborted
  }

  // decode_thread from its start to the first byte decoded
  function OpeningNext(s: State, choice: Choice): Option<Move>
    requires s.decode.Streaming?
  {
    var more := choice == Proceed(true);
    match s.decode.point
    case Start => Some(if choice.Fail? then OutWith(s, "Out of memory") else Onto(s, PreTest))
    case PreTest => Some(Onto(s, if s.stop then PreLeft else PreCount))
    case PreCount => Some(Onto(s, if more then PreAsk else PreLeft))
    case PreAsk => Some(Onto(s, if !s.stop && more then PreBody else PreLeft))
    case PreBody => Some(Showing(s, choice, PreTest))
    case PreLeft => Some(if s.stop then Out(s) else Onto(s, Fill))
    case Fill => Some(Onto(s, if !RingAborted(s) && more then Fill else FillLeft))
    case FillLeft => Some(if s.stop then Out(s) else Onto(s, Report))
    case Report => Some(Showing(s, choice, Classify))
    case Classify => Some(Classified(s, choice))
    case _ => None
  }

  // What the first bytes are taken for; Leave says there were none.
  function Classified(s: State, choice: Choice): Move
    requires s.decode.Streaming?
  {
    match choice
    case Leave => Onto(s, EndTest)
    case StartDecoding => Onto(s, First)
    case Redirect(url) =>
      if s.decode.hops >= MAX_SOURCE_HOPS then OutWith(s, "Too many playlist redirections")
      else Move(s.status, SwitchGen(s.decode.cur, s.decode.hops + 1, url))
    case Fail(error) => OutWith(s, error)
    case _ => OutWith(s, "Not an audio stream")
  }

  // report_stream_end
  function EndNext(s: State, choice: Choice): Option<Move>
    requires s.decode.Streaming?
  {
    match s.decode.point
    case EndTest => Some(Onto(s, if s.stop then EndLeft else EndAsk))
    case EndAsk => Some(Onto(s, if !s.stop && choice == Proceed(true) then EndTest else EndLeft))
    case EndLeft => Some(if s.stop then Out(s) else Onto(s, EndResult))
    case EndResult => Some(OutWith(s, if choice.Fail? then choice.error else "Stream ended"))
    case _ => None
  }

  // decode_thread's playing loop
  function DecodingNext(s: State, choice: Choice): Option<Move>
    requires s.decode.Streaming?
  {
    match s.decode.point
    case First => Some(Fed(s, choice, LoopTest))
    case LoopTest => Some(if s.stop then Out(s) else Onto(s, Read))
    case Read =>
      if RingAborted(s) then Some(Onto(s, Closed))
      else
        (match choice
         case Proceed(true) => Some(Onto(s, Feed))
         case Proceed(false) => Some(Onto(s, LateAsk))
         case Leave => Some(Onto(s, Closed))
         case _ => Some(Onto(s, Progress)))
    case Closed => Some(if s.stop then Out(s) else Onto(s, EndTest))
    case Feed => Some(Fed(s, choice, Progress))
    case Progress => Some(Showing(s, choice, LoopTest))
    case _ => None
  }

  // the wait inside it, when nothing has come for too long
  function LateNext(s: State, choice: Choice): Option<Move>
    requires s.decode.Streaming?
  {
    var more := choice == Proceed(true);
    match s.decode.point
    case LateAsk =>
      Some(if !s.stop && more then Move(s.status.(state := Buffering), s.decode.(point := LateTest)) else Onto(s, Progress))
    case LateTest => Some(Onto(s, if s.stop then Progress else LateCount))
    case LateCount => Some(Onto(s, if more then LateAgain else Progress))
    case LateAgain => Some(Onto(s, if !s.stop && more then LateBody else Progress))
    case LateBody => Some(Showing(s, choice, LateTest))
    case _ => None
  }

  // feed: on to next, unless the decoder fails or a callback asks to stop.
  function Fed(s: State, choice: Choice, next: Point): Move
    requires s.decode.Streaming?
  {
    match choice
    case Fail(error) => OutWith(s, error)
    case Leave => Out(s)
    case _ => Showing(s, choice, next)
  }

  predicate InOpening(at: Point) {
    || at.Start? || at.PreTest? || at.PreCount? || at.PreAsk? || at.PreBody? || at.PreLeft?
    || at.Fill? || at.FillLeft? || at.Report? || at.Classify?
  }

  predicate InEnd(at: Point) {
    at.EndTest? || at.EndAsk? || at.EndLeft? || at.EndResult?
  }

  predicate InLate(at: Point) {
    at.LateAsk? || at.LateTest? || at.LateCount? || at.LateAgain? || at.LateBody?
  }

  // decode_thread between its start and its exit path
  function PlaybackMove(s: State, choice: Choice): Option<Move>
    requires s.decode.Streaming?
  {
    if InOpening(s.decode.point) then OpeningNext(s, choice)
    else if InEnd(s.decode.point) then EndNext(s, choice)
    else if InLate(s.decode.point) then LateNext(s, choice)
    else DecodingNext(s, choice)
  }

  function PlaybackNext(s: State, choice: Choice): Option<State> {
    if !s.decode.Streaming? then None
    else
      match PlaybackMove(s, choice)
      case None => None
      case Some(m) => Some(s.(status := m.status, decode := m.decode))
  }

  // It only moves on, or begins to leave or to switch.
  predicate Follows(d: Decode, d': Decode) {
    && d.Streaming?
    && (|| (d'.Streaming? && d' == d.(point := d'.point))
        || d' == Exiting(d.cur)
        || (d.hops < MAX_SOURCE_HOPS && d'.SwitchGen? && d' == SwitchGen(d.cur, d.hops + 1, d'.url)))
  }

  lemma PlaybackMoves(s: State, choice: Choice)
    requires s.decode.Streaming?
    ensures PlaybackMove(s, choice).Some? && Follows(s.decode, PlaybackMove(s, choice).value.decode)
  {
    if InOpening(s.decode.point) {
      OpeningMoves(s, choice);
    } else if InEnd(s.decode.point) {
      EndMoves(s, choice);
    } else if InLate(s.decode.point) {
      LateMoves(s, choice);
    } else {
      DecodingMoves(s, choice);
    }
    hide *;
  }

  lemma OpeningMoves(s: State, choice: Choice)
    requires s.decode.Streaming? && InOpening(s.decode.point)
    ensures OpeningNext(s, choice).Some? && Follows(s.decode, OpeningNext(s, choice).value.decode)
    ensures PlaybackMove(s, choice) == OpeningNext(s, choice)
  {
    hide RingAborted, WithError, EndNext, DecodingNext, LateNext;
  }

  lemma EndMoves(s: State, choice: Choice)
    requires s.decode.Streaming? && InEnd(s.decode.point)
    ensures EndNext(s, choice).Some? && Follows(s.decode, EndNext(s, choice).value.decode)
    ensures PlaybackMove(s, choice) == EndNext(s, choice)
  {
    hide RingAborted, WithError, OpeningNext, DecodingNext, LateNext;
  }

  lemma LateMoves(s: State, choice: Choice)
    requires s.decode.Streaming? && InLate(s.decode.point)
    ensures LateNext(s, choice).Some? && Follows(s.decode, LateNext(s, choice).value.decode)
    ensures PlaybackMove(s, choice) == LateNext(s, choice)
  {
    hide RingAborted, WithError, OpeningNext, EndNext, DecodingNext;
  }

  lemma DecodingMoves(s: State, choice: Choice)
    requires s.decode.Streaming? && !InOpening(s.decode.point) && !InEnd(s.decode.point) && !InLate(s.decode.point)
    ensures DecodingNext(s, choice).Some? && Follows(s.decode, DecodingNext(s, choice).value.decode)
    ensures PlaybackMove(s, choice) == DecodingNext(s, choice)
  {
    hide RingAborted, WithError, OpeningNext, EndNext, LateNext;
  }

  // switch_source, before and after its critical section on the connection
  function SwitchNext(s: State, choice: Choice): Option<State> {
    match s.decode
    case SwitchGen(c, hops, url) =>
      var st := s.status.(url := if url.Some? then url.value else s.status.url,
                          state := Connecting, contentType := "", httpStatus := 0);
      Some(s.(status := st, gen := s.gen + 1, decode := SwitchAlloc(c, hops, s.gen + 1)))
    case SwitchAlloc(c, hops, gen) =>
      (match choice
       case Proceed(true) =>
         Some(s.(conns := s.conns + [Conn(gen, NotStarted, false, false, false, 0, NoReaper)],
                 decode := SwitchInstall(c, hops, |s.conns|)))
       case _ => Some(WithError(s, "Out of memory").(decode := Exiting(c))))
    case _ => None
  }

  // switch_source's critical section: start the new source and install it, unless a stop came first.
  // On success the old connection goes to conn_release; otherwise the new one is freed unstarted.
  function InstallNext(s: State, choice: Choice): Option<State> {
    match s.decode
    case SwitchInstall(c, hops, nc) =>
      if c >= |s.conns| || nc >= |s.conns| then None
      else if s.stop then Some(s.(decode := SwitchDiscard(c, hops, nc, false)))
      else if choice == Proceed(true) then
        Some(Handed(WithConn(s, nc, s.conns[nc].(source := Live)), c).(
               conn := Some(nc), source := Some(nc), ring := Some(nc),
               decode := SwitchRelease(nc, hops, c, Abort)))
      else Some(s.(decode := SwitchDiscard(c, hops, nc, true)))
    case SwitchDiscard(c, hops, nc, failed) =>
      if nc >= |s.conns| then None
      else
        var s' := WithConn(s, nc, s.conns[nc].(ringFreed := true, freed := true));
        var st := if failed then WithError(s, "Could not follow playlist").status else s.status;
        Some(s'.(status := st, decode := Exiting(c)))
    case _ => None
  }

  // switch_source's call of conn_release for the old connection
  function RetireNext(s: State): Option<State> {
    match s.decode
    case SwitchRelease(c, hops, dead, at) =>
      if dead >= |s.conns| then None
      else
        Some(Releasing(s, dead, at).(decode := match NextRelease(s, dead, at)
                                               case Some(next) => SwitchRelease(c, hops, dead, next)
                                               case None => Streaming(c, hops, PreTest)))
    case _ => None
  }

  // decode_thread from its label "out"
  function ExitNext(s: State): Option<State> {
    match s.decode
    case Exiting(_) =>
      if s.stop || s.conn.None? then Some(s.(decode := Finished))
      else if s.conn.value >= |s.conns| then None
      else
        Some(Handed(s, s.conn.value).(conn := None, source := None, ring := None,
                                      decode := ExitRelease(s.conn.value, Abort)))
    case ExitRelease(dead, at) =>
      if dead >= |s.conns| then None
      else
        Some(Releasing(s, dead, at).(decode := match NextRelease(s, dead, at)
                                               case Some(next) => ExitRelease(dead, next)
                                               case None => Finished))
    case _ => None
  }

  function DecodeNext(s: State, choice: Choice): Option<State> {
    if s.decode.Streaming? then PlaybackNext(s, choice)
    else if s.decode.Exiting? || s.decode.ExitRelease? then ExitNext(s)
    else if s.decode.SwitchInstall? || s.decode.SwitchDiscard? then InstallNext(s, choice)
    else if s.decode.SwitchRelease? then RetireNext(s)
    else SwitchNext(s, choice)
  }

  // ---- reapers and workers -----------------------------------------------------------------------------

  function ReapNext(s: State, c: ConnId): Option<State> {
    if c >= |s.conns| then None
    else
      var k := s.conns[c];
      match k.reaper
      case NoReaper => None
      case Spawned => Some(WithConn(s, c, k.(source := Joined, reaper := SourceStopped)))
      case SourceStopped => Some(WithConn(s, c, k.(ringFreed := true, reaper := RingFreed)))
      case RingFreed => Some(WithConn(s, c, k.(freed := true, reaper := MemoryFreed)))
      case MemoryFreed => Some(WithConn(s, c, k.(reaper := Counted)).(reapers := s.reapers - 1))
      case Counted => None
  }

  // A callback carries the generation its connection was started with, and is ignored unless that
  // is still the current one.
  function Called(s: State, gen: nat, call: Callback): Status {
    if gen != s.gen then s.status
    else
      var landed := if s.status.state.Connecting? then Buffering else s.status.state;
      match call
      case OnHeaders(contentType, http) => s.status.(contentType := contentType, httpStatus := http, state := landed)
      case OnTitle(title) => s.status.(title := title)
      case OnHlsReady(aac, http) =>
        s.status.(contentType := if aac then "HLS (AAC)" else "HLS (MPEG audio)", httpStatus := http, state := landed)
      case OnHlsNote(text) => s.status.(title := text)
  }

  predicate HasWorker(s: State, c: ConnId) {
    c < |s.conns| && s.conns[c].source.Live?
  }

  function Step(s: State, a: Action): Option<State> {
    match a
    case CallPlay(url) => if s.ui.UiIdle? then Some(s.(stop := true, ui := StopDetach(ToPlay(url)))) else None
    case CallStop => if s.ui.UiIdle? then Some(s.(stop := true, ui := StopDetach(ToIdle))) else None
    case UiStep(ok) => UiNext(s, ok)
    case DecodeStep(choice) => DecodeNext(s, choice)
    case ReapStep(c) => ReapNext(s, c)
    case WorkerCallback(c, call) =>
      if HasWorker(s, c) then Some(s.(status := Called(s, s.conns[c].gen, call))) else None
    case WorkerWrite(c) => if HasWorker(s, c) then Some(s) else None
  }

  function Run(s: State, acts: seq<Action>): Option<State>
    decreases |acts|
  {
    if acts == [] then Some(s)
    else
      match Step(s, acts[0])
      case None => None
      case Some(s') => Run(s', acts[1..])
  }

  // A state some interleaving of the threads leads to.
  ghost predicate Reachable(s: State) {
    exists acts :: Run(START, acts) == Some(s)
  }

  // ---- memory -----------------------------------------------------------------------------------------------

  // What a step may dereference: a Conn structure, its ring buffer, its source handle, or a null
  // pointer.
  datatype Cell = Memory(c: ConnId) | RingOf(c: ConnId) | HandleOf(c: ConnId) | Null

  predicate Usable(s: State, cell: Cell) {
    match cell
    case Memory(c) => c < |s.conns| && !s.conns[c].freed
    case RingOf(c) => c < |s.conns| && !s.conns[c].freed && !s.conns[c].ringFreed
    case HandleOf(c) => HasWorker(s, c)
    case Null => false
  }

  function TouchedByRelease(c: ConnId, at: Release): set<Cell> {
    match at
    case Abort => {Memory(c), RingOf(c)}
    case Count => {Memory(c), RingOf(c)}
    case Spawn => {Memory(c)}
  }

  // The points at which rb_count or rb_read is called on g_rb, and those that ask the source, which
  // happens only where no stop is under way.
  predicate ReadsRing(at: Point) {
    || at.PreCount? || at.PreBody? || at.Fill? || at.Report?
    || at.Read? || at.LateCount? || at.LateBody? || at.Progress?
  }

  predicate AsksSource(at: Point) {
    at.PreAsk? || at.EndAsk? || at.EndResult? || at.LateAsk? || at.LateAgain?
  }

  function TouchedAt(s: State, at: Point): set<Cell> {
    if ReadsRing(at) then {if s.ring.Some? then RingOf(s.ring.value) else Null}
    else if AsksSource(at) && !s.stop && s.source.Some? then {HandleOf(s.source.value)}
    else {}
  }

  function Touched(s: State, a: Action): set<Cell> {
    match a
    case UiStep(_) =>
      (match s.ui
       case StopAbort(_, Some(c)) => {Memory(c), RingOf(c)}
       case StopRelease(_, c, at) => TouchedByRelease(c, at)
       case PlayRing(c) => {Memory(c), RingOf(c)}
       case PlayInstall(c) => {HandleOf(c)}
       case _ => {})
    case DecodeStep(_) =>
      (match s.decode
       case Streaming(_, _, at) => TouchedAt(s, at)
       case SwitchInstall(_, _, nc) => {Memory(nc), RingOf(nc)}
       case SwitchDiscard(_, _, nc, _) => {Memory(nc), RingOf(nc)}
       case SwitchRelease(_, _, dead, at) => TouchedByRelease(dead, at)
       case ExitRelease(dead, at) => TouchedByRelease(dead, at)
       case _ => {})
    case ReapStep(c) =>
      if c >= |s.conns| then {}
      else
        (match s.conns[c].reaper
         case Spawned => {Memory(c), RingOf(c), HandleOf(c)}
         case SourceStopped => {Memory(c), RingOf(c)}
         case RingFreed => {Memory(c)}
         case _ => {})
    case WorkerCallback(c, _) => {HandleOf(c)}
    case WorkerWrite(c) => {HandleOf(c), RingOf(c)}
    case _ => {}
  }

  // ---- the invariant ------------------------------------------------------------------------------------------

  // The connection the UI thread alone is responsible for.
  function UiHolds(ui: Ui): Option<ConnId> {
    match ui
    case StopAbort(_, taken) => taken
    case StopJoin(_, taken) => taken
    case StopClear(_, taken) => taken
    case StopRelease(_, dead, _) => Some(dead)
    case PlayRing(c) => Some(c)
    case PlayInstall(c) => Some(c)
    case _ => None
  }

  // The connection the decode thread alone is responsible for.
  function DecodeHolds(d: Decode): Option<ConnId> {
    match d
    case SwitchInstall(_, _, nc) => Some(nc)
    case SwitchDiscard(_, _, nc, _) => Some(nc)
    case SwitchRelease(_, _, dead, _) => Some(dead)
    case ExitRelease(dead, _) => Some(dead)
    case _ => None
  }

  // The connection the decode thread reads from, whoever is responsible for it.
  function DecodeUses(d: Decode): Option<ConnId> {
    match d
    case NoThread => None
    case ExitRelease(_, _) => None
    case Finished => None
    case _ => Some(d.cur)
  }

  // The connection each of the two has inside conn_release.
  function UiReleases(ui: Ui): Option<ConnId> {
    if ui.StopRelease? then Some(ui.dead) else None
  }

  function DecodeReleases(d: Decode): Option<ConnId> {
    if d.SwitchRelease? || d.ExitRelease? then Some(d.dead) else None
  }

  // The connection the decode thread has allocated but not started.
  function Unstarted(d: Decode): Option<ConnId> {
    if d.SwitchInstall? || d.SwitchDiscard? then Some(d.made) else None
  }

  // A single connection: how far its reaper has come fixes what is left of it.
  predicate ConnOk(k: Conn) {
    match k.reaper
    case NoReaper => k.ringFreed == k.freed && (k.freed ==> k.source.NotStarted?) && !k.source.Joined?
    case Spawned => k.source.Live? && k.aborted && !k.ringFreed && !k.freed
    case SourceStopped => k.source.Joined? && k.aborted && !k.ringFreed && !k.freed
    case RingFreed => k.source.Joined? && k.aborted && k.ringFreed && !k.freed
    case MemoryFreed => k.source.Joined? && k.aborted && k.ringFreed && k.freed
    case Counted => k.source.Joined? && k.aborted && k.ringFreed && k.freed
  }

  predicate Holds(conns: seq<Conn>, holder: Option<ConnId>, unstarted: Option<ConnId>) {
    holder.Some? ==>
      && holder.value < |conns|
      && conns[holder.value].reaper.NoReaper? && !conns[holder.value].freed
      && conns[holder.value].source == if holder == unstarted then NotStarted else Live
  }

  // Every connection that still needs retiring has exactly one holder - it is installed, or in the
  // hands of the UI thread, or in those of the decode thread - and every holder holds one.
  ghost predicate Owned(conns: seq<Conn>, installed: Option<ConnId>, ui: Option<ConnId>, decode: Option<ConnId>,
                        unstarted: Option<ConnId>)
  {
    && (forall c: ConnId | c < |conns| :: ConnOk(conns[c]))
    && Holds(conns, installed, unstarted) && Holds(conns, ui, unstarted) && Holds(conns, decode, unstarted)
    && (forall c: ConnId | c < |conns| :: conns[c].reaper.NoReaper? && !conns[c].freed ==>
          installed == Some(c) || ui == Some(c) || decode == Some(c))
    && (installed.Some? ==> ui != installed && decode != installed)
    && (ui.Some? ==> ui != decode)
    && (unstarted.Some? ==> decode == unstarted)
  }

  // conn_release has been entered once for a connection being retired or already with its reaper,
  // and never for any other.
  ghost predicate HandedOnce(conns: seq<Conn>, ui: Option<ConnId>, decode: Option<ConnId>) {
    && (forall c: ConnId | c < |conns| ::
          conns[c].releases == if !conns[c].reaper.NoReaper? || ui == Some(c) || decode == Some(c) then 1 else 0)
    && (ui.Some? ==> ui != decode && ui.value < |conns| && conns[ui.value].reaper.NoReaper?)
    && (decode.Some? ==> decode.value < |conns| && conns[decode.value].reaper.NoReaper?)
  }

  // Past its first step, conn_release has aborted the ring; and so has player_stop before its join.
  predicate AbortedFirst(s: State) {
    && (s.ui.StopJoin? && s.ui.taken.Some? && s.ui.taken.value < |s.conns| ==> s.conns[s.ui.taken.value].aborted)
    && (s.ui.StopRelease? && !s.ui.at.Abort? && s.ui.dead < |s.conns| ==> s.conns[s.ui.dead].aborted)
    && ((s.decode.SwitchRelease? || s.decode.ExitRelease?) && !s.decode.at.Abort? && s.decode.dead < |s.conns|
        ==> s.conns[s.decode.dead].aborted)
  }

  // Which threads can be where at the same time.
  predicate Scheduled(s: State) {
    && s.source == s.conn
    && (s.decode.NoThread? <==> !s.threadRunning && !s.ui.PlayRunning?)
    && (s.threadRunning ==> s.ui.UiIdle? || Stopping(s.ui))
    && (Stopping(s.ui) ==> s.stop)
    && (s.stop && !s.decode.NoThread? ==> Stopping(s.ui))
    && (Starting(s.ui) || s.ui.PlayStatus? || s.ui.PlayCheck? ==> !s.stop)
    && (s.conn.Some? ==>
          || (DecodeUses(s.decode) == s.conn && (s.ui.UiIdle? || s.ui.PlayRunning? || s.ui.StopDetach?))
          || s.ui == PlaySpawn(s.conn.value)
          || (s.ui.StopDetach? && (s.decode.NoThread? || s.decode.Finished?)))
    && (s.ui.PlaySpawn? ==> s.conn == Some(s.ui.made) && s.ring == s.conn)
    && (s.ui.PlayInstall? ==> s.ring == Some(s.ui.made))
    && (var used := DecodeUses(s.decode);
        used.Some? ==>
          && s.ring == used
          && (s.conn == used || ((s.ui.StopAbort? || s.ui.StopJoin?) && UiHolds(s.ui) == used)))
    && Hops(s.decode) <= MAX_SOURCE_HOPS
  }

  // How many source switches the decode thread has counted so far.
  function Hops(d: Decode): nat {
    match d
    case NoThread => 0
    case Exiting(_) => 0
    case ExitRelease(_, _) => 0
    case Finished => 0
    case _ => d.hops
  }

  // Generations grow with the connections up to the current one, which stays above them all while
  // it belongs to none (unused). Once outdated, the connections handed to conn_release are all
  // below it.
  ghost predicate Generations(conns: seq<Conn>, gen: nat, unused: bool, outdated: bool) {
    && (forall c: ConnId | c < |conns| :: if unused then conns[c].gen < gen else conns[c].gen <= gen)
    && (forall b: ConnId, c: ConnId | b < c < |conns| :: conns[b].gen < conns[c].gen)
    && (outdated ==> forall c: ConnId | c < |conns| && conns[c].releases > 0 :: conns[c].gen < gen)
  }

  // The decode thread has retired its own connection, and no stop has renewed the generation since.
  predicate LeftByItself(s: State) {
    s.decode.ExitRelease? || s.decode.Finished? || s.ui.StopClear?
  }

  ghost predicate Dated(s: State) {
    && Generations(s.conns, s.gen, Unused(s), !LeftByItself(s))
    && (s.ui.PlayCheck? || s.ui.PlayStart? ==> s.ui.gen == s.gen)
    && (s.decode.SwitchAlloc? ==> s.decode.gen == s.gen)
    && (s.decode.SwitchInstall? ==> s.decode.made == |s.conns| - 1)
  }

  // The current generation belongs to no connection yet.
  predicate Unused(s: State) {
    || s.ui.StopRelease? || s.ui.PlayBegin? || s.ui.PlayStatus? || s.ui.PlayCheck? || s.ui.PlayStart?
    || s.ui.SpawnFailed? || s.decode.SwitchAlloc?
  }

  ghost predicate OwnedIn(s: State) {
    Owned(s.conns, s.conn, UiHolds(s.ui), DecodeHolds(s.decode), Unstarted(s.decode))
  }

  ghost predicate HandedIn(s: State) {
    HandedOnce(s.conns, UiReleases(s.ui), DecodeReleases(s.decode))
  }

  ghost predicate Inv(s: State) {
    OwnedIn(s) && HandedIn(s) && AbortedFirst(s) && Scheduled(s) && Dated(s)
  }

  // ---- how ownership passes on ------------------------------------------------------------------------------

  lemma OwnedUpdate(conns: seq<Conn>, i: Option<ConnId>, u: Option<ConnId>, d: Option<ConnId>, n: Option<ConnId>,
                    c: ConnId, k: Conn)
    requires Owned(conns, i, u, d, n) && c < |conns|
    requires k.source == conns[c].source && k.reaper == conns[c].reaper
    requires k.freed == conns[c].freed && k.ringFreed == conns[c].ringFreed && (conns[c].aborted ==> k.aborted)
    ensures Owned(conns[c := k], i, u, d, n)
  {}

  lemma OwnedReap(conns: seq<Conn>, i: Option<ConnId>, u: Option<ConnId>, d: Option<ConnId>, n: Option<ConnId>,
                  c: ConnId, k: Conn)
    requires Owned(conns, i, u, d, n) && c < |conns|
    requires !conns[c].reaper.NoReaper? && !k.reaper.NoReaper? && ConnOk(k)
    ensures Owned(conns[c := k], i, u, d, n)
  {}

  lemma OwnedSpawnUi(conns: seq<Conn>, i: Option<ConnId>, c: ConnId, d: Option<ConnId>, n: Option<ConnId>)
    requires Owned(conns, i, Some(c), d, n) && conns[c].aborted && n != Some(c)
    ensures Owned(conns[c := conns[c].(reaper := Spawned)], i, None, d, n)
  {}

  lemma OwnedSpawnDecode(conns: seq<Conn>, i: Option<ConnId>, u: Option<ConnId>, c: ConnId)
    requires Owned(conns, i, u, Some(c), None) && conns[c].aborted
    ensures Owned(conns[c := conns[c].(reaper := Spawned)], i, u, None, None)
  {}

  lemma OwnedStart(conns: seq<Conn>, i: Option<ConnId>, d: Option<ConnId>, n: Option<ConnId>, k: Conn)
    requires Owned(conns, i, None, d, n)
    requires k.source.Live? && k.reaper.NoReaper? && !k.ringFreed && !k.freed
    ensures Owned(conns + [k], i, Some(|conns|), d, n)
  {}

  lemma OwnedAllocate(conns: seq<Conn>, i: Option<ConnId>, u: Option<ConnId>, k: Conn)
    requires Owned(conns, i, u, None, None)
    requires k.source.NotStarted? && k.reaper.NoReaper? && !k.ringFreed && !k.freed
    ensures Owned(conns + [k], i, u, Some(|conns|), Some(|conns|))
  {}

  lemma OwnedInstall(conns: seq<Conn>, c: ConnId, u: Option<ConnId>, nc: ConnId, live: Conn, handed: Conn)
    requires Owned(conns, Some(c), u, Some(nc), Some(nc))
    requires live == conns[nc].(source := Live) && handed == conns[c].(releases := conns[c].releases + 1)
    ensures c != nc && Owned(conns[nc := live][c := handed], Some(nc), u, Some(c), None)
  {
    assert conns[nc := live][c := handed][nc] == live;
  }

  lemma OwnedDiscard(conns: seq<Conn>, i: Option<ConnId>, u: Option<ConnId>, nc: ConnId)
    requires Owned(conns, i, u, Some(nc), Some(nc))
    ensures Owned(conns[nc := conns[nc].(ringFreed := true, freed := true)], i, u, None, None)
  {}

  lemma HandedUpdate(conns: seq<Conn>, u: Option<ConnId>, d: Option<ConnId>, c: ConnId, k: Conn)
    requires HandedOnce(conns, u, d) && c < |conns|
    requires k.releases == conns[c].releases && k.reaper.NoReaper? == conns[c].reaper.NoReaper?
    ensures HandedOnce(conns[c := k], u, d)
  {}

  lemma HandedAppend(conns: seq<Conn>, u: Option<ConnId>, d: Option<ConnId>, k: Conn)
    requires HandedOnce(conns, u, d) && k.releases == 0 && k.reaper.NoReaper?
    ensures HandedOnce(conns + [k], u, d)
  {}

  lemma HandedEnterUi(conns: seq<Conn>, d: Option<ConnId>, c: ConnId)
    requires HandedOnce(conns, None, d) && c < |conns| && conns[c].reaper.NoReaper? && d != Some(c)
    ensures HandedOnce(conns[c := conns[c].(releases := conns[c].releases + 1)], Some(c), d)
  {}

  lemma HandedEnterDecode(conns: seq<Conn>, u: Option<ConnId>, c: ConnId)
    requires HandedOnce(conns, u, None) && c < |conns| && conns[c].reaper.NoReaper? && u != Some(c)
    ensures HandedOnce(conns[c := conns[c].(releases := conns[c].releases + 1)], u, Some(c))
  {}

  lemma HandedSpawnUi(conns: seq<Conn>, c: ConnId, d: Option<ConnId>)
    requires HandedOnce(conns, Some(c), d)
    ensures HandedOnce(conns[c := conns[c].(reaper := Spawned)], None, d)
  {}

  lemma HandedSpawnDecode(conns: seq<Conn>, u: Option<ConnId>, c: ConnId)
    requires HandedOnce(conns, u, Some(c))
    ensures HandedOnce(conns[c := conns[c].(reaper := Spawned)], u, None)
  {}

  lemma GenerationsUpdate(conns: seq<Conn>, gen: nat, unused: bool, outdated: bool, c: ConnId, k: Conn)
    requires Generations(conns, gen, unused, outdated) && c < |conns| && k.gen == conns[c].gen
    requires outdated ==> k.releases == conns[c].releases || k.gen < gen
    ensures Generations(conns[c := k], gen, unused, outdated)
  {}

  lemma GenerationsAppend(conns: seq<Conn>, gen: nat, outdated: bool, k: Conn)
    requires Generations(conns, gen, true, outdated) && k.gen == gen && k.releases == 0
    ensures Generations(conns + [k], gen, false, outdated)
  {}

  // A new generation is nobody's, and leaves every retired connection behind.
  lemma GenerationsRenew(conns: seq<Conn>, gen: nat, unused: bool, outdated: bool)
    requires Generations(conns, gen, unused, outdated)
    ensures Generations(conns, gen + 1, true, true)
    ensures forall c: ConnId | c < |conns| :: conns[c].gen < gen + 1
  {}

  lemma GenerationsRelax(conns: seq<Conn>, gen: nat, unused: bool, outdated: bool)
    requires Generations(conns, gen, unused, outdated)
    ensures Generations(conns, gen, false, false)
    ensures Generations(conns, gen, unused, false)
    ensures Generations(conns, gen, false, outdated)
    ensures unused ==> Generations(conns, gen, unused, true)
  {}

  // ---- every step keeps the invariant ------------------------------------------------------------------------

  // What the invariant says of the connections somebody holds.
  lemma Holders(s: State)
    requires OwnedIn(s) && HandedIn(s)
    ensures Holds(s.conns, s.conn, Unstarted(s.decode)) && Holds(s.conns, UiHolds(s.ui), Unstarted(s.decode))
    ensures Holds(s.conns, DecodeHolds(s.decode), Unstarted(s.decode))
    ensures s.conn.Some? ==> UiHolds(s.ui) != s.conn && DecodeHolds(s.decode) != s.conn
    ensures UiHolds(s.ui).Some? ==> UiHolds(s.ui) != DecodeHolds(s.decode)
    ensures UiReleases(s.ui).Some? ==> UiReleases(s.ui).value < |s.conns|
    ensures DecodeReleases(s.decode).Some? ==> DecodeReleases(s.decode).value < |s.conns|
  {}

  lemma ReaperOk(s: State, c: ConnId)
    requires OwnedIn(s) && c < |s.conns|
    ensures ConnOk(s.conns[c])
  {}

  lemma ReapKeepsOwned(s: State, c: ConnId, s': State)
    requires OwnedIn(s) && HandedIn(s) && ReapNext(s, c) == Some(s')
    ensures OwnedIn(s') && HandedIn(s')
  {
    ReaperOk(s, c);
    hide Owned, HandedOnce;
    OwnedReap(s.conns, s.conn, UiHolds(s.ui), DecodeHolds(s.decode), Unstarted(s.decode), c, s'.conns[c]);
    HandedUpdate(s.conns, UiReleases(s.ui), DecodeReleases(s.decode), c, s'.conns[c]);
  }

  // A reaper changes its connection and the count, nothing else.
  lemma ReapChanges(s: State, c: ConnId, s': State)
    requires ReapNext(s, c) == Some(s')
    ensures c < |s.conns| && s' == s.(conns := s.conns[c := s'.conns[c]], reapers := s'.reapers)
    ensures var k, k' := s.conns[c], s'.conns[c];
      k'.gen == k.gen && k'.releases == k.releases && k'.aborted == k.aborted && |s'.conns| == |s.conns|
  {}

  lemma ReapKeepsScheduled(s: State, c: ConnId, s': State)
    requires AbortedFirst(s) && Scheduled(s) && ReapNext(s, c) == Some(s')
    ensures AbortedFirst(s') && Scheduled(s')
  {
    ReapChanges(s, c, s');
    hide ReapNext;
  }

  lemma ReapKeepsDated(s: State, c: ConnId, s': State)
    requires Dated(s) && ReapNext(s, c) == Some(s')
    ensures Dated(s')
  {
    ReapChanges(s, c, s');
    hide ReapNext, Generations;
    GenerationsUpdate(s.conns, s.gen, Unused(s), !LeftByItself(s), c, s'.conns[c]);
  }

  // A connection passes between "installed" and the UI thread's hands, or into the decode thread's.
  lemma OwnedMove(conns: seq<Conn>, c: Option<ConnId>, d: Option<ConnId>, n: Option<ConnId>)
    ensures Owned(conns, c, None, d, n) == Owned(conns, None, c, d, n)
  {}

  lemma OwnedTake(conns: seq<Conn>, c: Option<ConnId>, u: Option<ConnId>)
    requires Owned(conns, c, u, None, None)
    ensures Owned(conns, None, u, c, None)
  {}

  lemma StopKeepsOwned(s: State, s': State)
    requires OwnedIn(s) && HandedIn(s) && Scheduled(s) && StopNext(s) == Some(s')
    ensures OwnedIn(s') && HandedIn(s')
  {
    hide Owned, HandedOnce, ConnOk;
    Holders(s);
    var i, u, d, n := s.conn, UiHolds(s.ui), DecodeHolds(s.decode), Unstarted(s.decode);
    match s.ui
    case StopDetach(_) => OwnedMove(s.conns, i, d, n);
    case StopAbort(_, Some(c)) =>
      OwnedUpdate(s.conns, i, u, d, n, c, s'.conns[c]);
      HandedUpdate(s.conns, UiReleases(s.ui), DecodeReleases(s.decode), c, s'.conns[c]);
    case _ =>
  }

  lemma StopKeepsScheduled(s: State, s': State)
    requires OwnedIn(s) && HandedIn(s) && AbortedFirst(s) && Scheduled(s) && StopNext(s) == Some(s')
    ensures AbortedFirst(s') && Scheduled(s')
  {
    hide Owned, HandedOnce, ConnOk;
    Holders(s);
  }

  lemma StopKeepsDated(s: State, s': State)
    requires Dated(s) && StopNext(s) == Some(s')
    ensures Dated(s')
  {
    hide Generations;
    var unused, outdated := Unused(s), !LeftByItself(s);
    GenerationsRelax(s.conns, s.gen, unused, outdated);
    if s.ui.StopAbort? && s.ui.taken.Some? {
      GenerationsUpdate(s.conns, s.gen, unused, outdated, s.ui.taken.value, s'.conns[s.ui.taken.value]);
    }
  }

  lemma StopEndKeepsOwned(s: State, s': State)
    requires OwnedIn(s) && HandedIn(s) && AbortedFirst(s) && Scheduled(s) && StopEndNext(s) == Some(s')
    ensures OwnedIn(s') && HandedIn(s')
  {
    hide Owned, HandedOnce, ConnOk;
    Holders(s);
    var i, u := s.conn, UiHolds(s.ui);
    match s.ui
    case StopClear(_, Some(c)) =>
      OwnedUpdate(s.conns, i, u, None, None, c, s'.conns[c]);
      HandedEnterUi(s.conns, None, c);
    case StopRelease(_, c, Abort) =>
      OwnedUpdate(s.conns, i, u, None, None, c, s'.conns[c]);
      HandedUpdate(s.conns, Some(c), None, c, s'.conns[c]);
    case StopRelease(_, c, Spawn) =>
      OwnedSpawnUi(s.conns, i, c, None, None);
      HandedSpawnUi(s.conns, c, None);
    case _ =>
  }

  lemma StopEndKeepsScheduled(s: State, s': State)
    requires OwnedIn(s) && HandedIn(s) && AbortedFirst(s) && Scheduled(s) && StopEndNext(s) == Some(s')
    ensures AbortedFirst(s') && Scheduled(s')
  {
    hide Owned, HandedOnce, ConnOk;
    Holders(s);
  }

  lemma StopEndKeepsDated(s: State, s': State)
    requires Scheduled(s) && Dated(s) && StopEndNext(s) == Some(s')
    ensures Dated(s')
  {
    hide Generations;
    if s.ui.StopClear? {
      GenerationsRenew(s.conns, s.gen, Unused(s), !LeftByItself(s));
      if s.ui.taken.Some? {
        GenerationsUpdate(s.conns, s.gen + 1, true, true, s.ui.taken.value, s'.conns[s.ui.taken.value]);
      }
    } else {
      GenerationsUpdate(s.conns, s.gen, true, true, s.ui.dead, s'.conns[s.ui.dead]);
    }
    GenerationsRelax(s'.conns, s'.gen, true, true);
  }

  lemma PlayKeepsInv(s: State, ok: bool, s': State)
    requires Inv(s) && PlayNext(s, ok) == Some(s')
    ensures Inv(s')
  {
    hide Owned, HandedOnce, Generations;
    GenerationsRelax(s.conns, s.gen, Unused(s), !LeftByItself(s));
  }

  lemma StartKeepsOwned(s: State, ok: bool, s': State)
    requires OwnedIn(s) && HandedIn(s) && Scheduled(s) && StartNext(s, ok) == Some(s')
    ensures OwnedIn(s') && HandedIn(s')
  {
    hide Owned, HandedOnce, ConnOk;
    Holders(s);
    if s.ui.PlayStart? && ok {
      OwnedStart(s.conns, s.conn, None, None, s'.conns[|s.conns|]);
      HandedAppend(s.conns, None, None, s'.conns[|s.conns|]);
    } else if s.ui.PlayInstall? {
      OwnedMove(s.conns, UiHolds(s.ui), None, None);
    }
  }

  lemma StartKeepsScheduled(s: State, ok: bool, s': State)
    requires OwnedIn(s) && HandedIn(s) && AbortedFirst(s) && Scheduled(s) && StartNext(s, ok) == Some(s')
    ensures AbortedFirst(s') && Scheduled(s')
  {
    hide Owned, HandedOnce, ConnOk;
    Holders(s);
  }

  lemma StartKeepsDated(s: State, ok: bool, s': State)
    requires Dated(s) && Scheduled(s) && StartNext(s, ok) == Some(s')
    ensures Dated(s')
  {
    hide Generations;
    GenerationsRelax(s.conns, s.gen, Unused(s), !LeftByItself(s));
    if s.ui.PlayStart? && ok { GenerationsAppend(s.conns, s.gen, !LeftByItself(s), s'.conns[|s.conns|]); }
  }

  lemma PlaybackKeepsInv(s: State, choice: Choice, s': State)
    requires Inv(s) && PlaybackNext(s, choice) == Some(s')
    ensures Inv(s')
  {
    PlaybackMoves(s, choice);
    hide Owned, HandedOnce, Generations, PlaybackMove;
  }

  lemma SwitchKeepsOwned(s: State, choice: Choice, s': State)
    requires OwnedIn(s) && HandedIn(s) && SwitchNext(s, choice) == Some(s')
    ensures OwnedIn(s') && HandedIn(s')
  {
    hide Owned, HandedOnce;
    if s.decode.SwitchAlloc? && choice == Proceed(true) {
      OwnedAllocate(s.conns, s.conn, UiHolds(s.ui), s'.conns[|s.conns|]);
      HandedAppend(s.conns, UiReleases(s.ui), None, s'.conns[|s.conns|]);
    }
  }

  lemma SwitchKeepsScheduled(s: State, choice: Choice, s': State)
    requires OwnedIn(s) && HandedIn(s) && AbortedFirst(s) && Scheduled(s) && SwitchNext(s, choice) == Some(s')
    ensures AbortedFirst(s') && Scheduled(s')
  {
    hide Owned, HandedOnce, ConnOk;
    Holders(s);
  }

  lemma SwitchKeepsDated(s: State, choice: Choice, s': State)
    requires Scheduled(s) && Dated(s) && SwitchNext(s, choice) == Some(s')
    ensures Dated(s')
  {
    hide Generations;
    var unused, outdated := Unused(s), !LeftByItself(s);
    if s.decode.SwitchGen? {
      GenerationsRenew(s.conns, s.gen, unused, outdated);
    } else if choice == Proceed(true) {
      GenerationsAppend(s.conns, s.gen, outdated, s'.conns[|s.conns|]);
    } else {
      GenerationsRelax(s.conns, s.gen, unused, outdated);
    }
  }

  lemma DiscardKeepsOwned(s: State, choice: Choice, s': State)
    requires OwnedIn(s) && HandedIn(s) && s.decode.SwitchDiscard? && InstallNext(s, choice) == Some(s')
    ensures OwnedIn(s') && HandedIn(s')
  {
    hide Owned, HandedOnce, ConnOk;
    Holders(s);
    var nc, u, ur := s.decode.made, UiHolds(s.ui), UiReleases(s.ui);
    OwnedDiscard(s.conns, s.conn, u, nc);
    HandedUpdate(s.conns, ur, None, nc, s'.conns[nc]);
  }

  lemma InstallKeepsOwned(s: State, choice: Choice, s': State)
    requires OwnedIn(s) && HandedIn(s) && Scheduled(s) && InstallNext(s, choice) == Some(s')
    ensures OwnedIn(s') && HandedIn(s')
  {
    if s.decode.SwitchDiscard? {
      hide *;
      DiscardKeepsOwned(s, choice, s');
    } else {
      Holders(s);
      hide Owned, HandedOnce, ConnOk;
      var c, nc, u, ur := s.decode.cur, s.decode.made, UiHolds(s.ui), UiReleases(s.ui);
      if !s.stop && choice == Proceed(true) {
        var live := s.conns[nc].(source := Live);
        OwnedInstall(s.conns, c, u, nc, live, s'.conns[c]);
        HandedUpdate(s.conns, ur, None, nc, live);
        HandedEnterDecode(s.conns[nc := live], ur, c);
      }
    }
  }

  lemma InstallKeepsScheduled(s: State, choice: Choice, s': State)
    requires OwnedIn(s) && HandedIn(s) && AbortedFirst(s) && Scheduled(s) && InstallNext(s, choice) == Some(s')
    ensures AbortedFirst(s') && Scheduled(s')
  {
    hide Owned, HandedOnce, ConnOk;
    Holders(s);
  }

  lemma InstallKeepsDated(s: State, choice: Choice, s': State)
    requires OwnedIn(s) && HandedIn(s) && Scheduled(s) && Dated(s) && InstallNext(s, choice) == Some(s')
    ensures Dated(s')
  {
    hide Owned, HandedOnce, Generations, ConnOk;
    Holders(s);
    var c, nc, unused, outdated := s.decode.cur, s.decode.made, Unused(s), !LeftByItself(s);
    if s.decode.SwitchDiscard? {
      GenerationsUpdate(s.conns, s.gen, unused, outdated, nc, s'.conns[nc]);
    } else if !s.stop && choice == Proceed(true) {
      var live := s.conns[nc].(source := Live);
      OlderThan(s.conns, s.gen, unused, outdated, c, nc);
      GenerationsUpdate(s.conns, s.gen, unused, outdated, nc, live);
      GenerationsUpdate(s.conns[nc := live], s.gen, unused, outdated, c, s'.conns[c]);
    }
  }

  lemma OlderThan(conns: seq<Conn>, gen: nat, unused: bool, outdated: bool, c: ConnId, nc: ConnId)
    requires Generations(conns, gen, unused, outdated) && c < nc < |conns|
    ensures conns[c].gen < gen
  {
    assert conns[c].gen < conns[nc].gen;
  }

  lemma RetireKeepsOwned(s: State, s': State)
    requires OwnedIn(s) && HandedIn(s) && AbortedFirst(s) && Scheduled(s) && RetireNext(s) == Some(s')
    ensures OwnedIn(s') && HandedIn(s')
  {
    hide Owned, HandedOnce, ConnOk;
    Holders(s);
    var u, ur, c := UiHolds(s.ui), UiReleases(s.ui), s.decode.dead;
    if s.decode.at.Abort? {
      OwnedUpdate(s.conns, s.conn, u, Some(c), None, c, s'.conns[c]);
      HandedUpdate(s.conns, ur, Some(c), c, s'.conns[c]);
    } else if s.decode.at.Spawn? {
      OwnedSpawnDecode(s.conns, s.conn, u, c);
      HandedSpawnDecode(s.conns, ur, c);
    }
  }

  lemma RetireKeepsScheduled(s: State, s': State)
    requires OwnedIn(s) && HandedIn(s) && AbortedFirst(s) && Scheduled(s) && RetireNext(s) == Some(s')
    ensures AbortedFirst(s') && Scheduled(s')
  {
    hide Owned, HandedOnce, ConnOk;
    Holders(s);
  }

  // A step of conn_release leaves generations and counts of releases as they are.
  lemma ReleasingDated(s: State, c: ConnId, at: Release)
    requires c < |s.conns|
    ensures var s' := Releasing(s, c, at);
      && s'.conns == s.conns[c := s'.conns[c]] && s'.gen == s.gen && s'.ui == s.ui && s'.conn == s.conn
      && s'.conns[c].gen == s.conns[c].gen && s'.conns[c].releases == s.conns[c].releases
  {}

  lemma RetireKeepsDated(s: State, s': State)
    requires OwnedIn(s) && HandedIn(s) && Dated(s) && RetireNext(s) == Some(s')
    ensures Dated(s')
  {
    hide Owned, HandedOnce, Generations, ConnOk, OwnedIn, HandedIn, Releasing, NextRelease;
    ReleasingDated(s, s.decode.dead, s.decode.at);
    GenerationsUpdate(s.conns, s.gen, Unused(s), !LeftByItself(s), s.decode.dead, s'.conns[s.decode.dead]);
  }

  lemma ExitKeepsOwned(s: State, s': State)
    requires OwnedIn(s) && HandedIn(s) && AbortedFirst(s) && Scheduled(s) && ExitNext(s) == Some(s')
    ensures OwnedIn(s') && HandedIn(s')
  {
    hide Owned, HandedOnce, ConnOk;
    Holders(s);
    var i, u, ur := s.conn, UiHolds(s.ui), UiReleases(s.ui);
    match s.decode
    case ExitRelease(c, Abort) =>
      OwnedUpdate(s.conns, i, u, Some(c), None, c, s'.conns[c]);
      HandedUpdate(s.conns, ur, Some(c), c, s'.conns[c]);
    case ExitRelease(c, Spawn) =>
      OwnedSpawnDecode(s.conns, i, u, c);
      HandedSpawnDecode(s.conns, ur, c);
    case Exiting(_) =>
      if !s.stop && i.Some? {
        OwnedUpdate(s.conns, i, u, None, None, i.value, s'.conns[i.value]);
        OwnedTake(s'.conns, i, u);
        HandedEnterDecode(s.conns, ur, i.value);
      }
    case _ =>
  }

  lemma ExitKeepsScheduled(s: State, s': State)
    requires OwnedIn(s) && HandedIn(s) && AbortedFirst(s) && Scheduled(s) && ExitNext(s) == Some(s')
    ensures AbortedFirst(s') && Scheduled(s')
  {
    hide Owned, HandedOnce, ConnOk;
    Holders(s);
  }

  lemma ExitKeepsDated(s: State, s': State)
    requires OwnedIn(s) && HandedIn(s) && Scheduled(s) && Dated(s) && ExitNext(s) == Some(s')
    ensures Dated(s')
  {
    hide Owned, HandedOnce, Generations, ConnOk, OwnedIn, HandedIn, Scheduled, Releasing, NextRelease;
    var unused := Unused(s);
    GenerationsRelax(s.conns, s.gen, unused, !LeftByItself(s));
    match s.decode
    case ExitRelease(c, at) =>
      ReleasingDated(s, c, at);
      GenerationsUpdate(s.conns, s.gen, unused, false, c, s'.conns[c]);
    case Exiting(_) =>
      if !s.stop && s.conn.Some? {
        GenerationsUpdate(s.conns, s.gen, unused, false, s.conn.value, s'.conns[s.conn.value]);
      }
    case _ =>
  }

  lemma DecodeKeepsInv(s: State, choice: Choice, s': State)
    requires Inv(s) && DecodeNext(s, choice) == Some(s')
    ensures Inv(s')
  {
    hide OwnedIn, HandedIn, AbortedFirst, Scheduled, Dated;
    hide PlaybackNext, SwitchNext, InstallNext, RetireNext, ExitNext;
    if PlaybackNext(s, choice) == Some(s') {
      PlaybackKeepsInv(s, choice, s');
    } else if SwitchNext(s, choice) == Some(s') {
      SwitchKeepsOwned(s, choice, s');
      SwitchKeepsScheduled(s, choice, s');
      SwitchKeepsDated(s, choice, s');
    } else if InstallNext(s, choice) == Some(s') {
      InstallKeepsOwned(s, choice, s');
      InstallKeepsScheduled(s, choice, s');
      InstallKeepsDated(s, choice, s');
    } else if RetireNext(s) == Some(s') {
      RetireKeepsOwned(s, s');
      RetireKeepsScheduled(s, s');
      RetireKeepsDated(s, s');
    } else {
      ExitKeepsOwned(s, s');
      ExitKeepsScheduled(s, s');
      ExitKeepsDated(s, s');
    }
  }

  lemma UiKeepsInv(s: State, ok: bool, s': State)
    requires Inv(s) && UiNext(s, ok) == Some(s')
    ensures Inv(s')
  {
    hide OwnedIn, HandedIn, AbortedFirst, Scheduled, Dated;
    hide StopNext, StopEndNext, PlayNext, StartNext;
    if StopNext(s) == Some(s') {
      StopKeepsOwned(s, s');
      StopKeepsScheduled(s, s');
      StopKeepsDated(s, s');
    } else if StopEndNext(s) == Some(s') {
      StopEndKeepsOwned(s, s');
      StopEndKeepsScheduled(s, s');
      StopEndKeepsDated(s, s');
    } else if StartNext(s, ok) == Some(s') {
      StartKeepsOwned(s, ok, s');
      StartKeepsScheduled(s, ok, s');
      StartKeepsDated(s, ok, s');
    } else {
      PlayKeepsInv(s, ok, s');
    }
  }

  // A call from the user interface, or a callback, changes no connection.
  lemma CallKeepsInv(s: State, a: Action, s': State)
    requires a.CallPlay? || a.CallStop? || a.WorkerCallback? || a.WorkerWrite?
    requires Inv(s) && Step(s, a) == Some(s')
    ensures Inv(s')
  {
    hide Owned, HandedOnce, Generations;
  }

  lemma StepKeepsInv(s: State, a: Action, s': State)
    requires Inv(s) && Step(s, a) == Some(s')
    ensures Inv(s')
  {
    hide OwnedIn, HandedIn, AbortedFirst, Scheduled, Dated, UiNext, DecodeNext, ReapNext, Called;
    match a
    case UiStep(ok) => UiKeepsInv(s, ok, s');
    case DecodeStep(choice) => DecodeKeepsInv(s, choice, s');
    case ReapStep(c) =>
      ReapKeepsOwned(s, c, s');
      ReapKeepsScheduled(s, c, s');
      ReapKeepsDated(s, c, s');
    case _ => CallKeepsInv(s, a, s');
  }

  /** Every interleaving keeps the invariant. */
  lemma {:induction false} RunKeepsInv(s: State, acts: seq<Action>, s': State)
    requires Inv(s) && Run(s, acts) == Some(s')
    ensures Inv(s')
    decreases |acts|
  {
    hide Inv, Step;
    if acts != [] {
      var next := Step(s, acts[0]).value;
      StepKeepsInv(s, acts[0], next);
      RunKeepsInv(next, acts[1..], s');
    }
  }

  lemma StartInv()
    ensures Inv(START)
  {}

  lemma RunTo(s: State) returns (acts: seq<Action>)
    requires Reachable(s)
    ensures Run(START, acts) == Some(s)
  {
    hide Step;
    acts :| Run(START, acts) == Some(s);
  }

  lemma ReachableInv(s: State)
    requires Reachable(s)
    ensures Inv(s)
  {
    hide *;
    var acts := RunTo(s);
    StartInv();
    RunKeepsInv(START, acts, s);
  }
}
