/** src/ringbuf.c between its two threads: one producer in rb_write, one consumer in rb_read, and
    anybody calling rb_close or rb_abort. A step is what one thread does while it holds the lock. */
module RingRuns {
  import opened Prelude
  import R = RingBuf

  // What is left of the rb_write call in progress; Asleep is inside pthread_cond_wait.
  datatype Writer = Resting | Awake(rest: Bytes) | Asleep(rest: Bytes)

  datatype Patience = NoWait | Timed | Forever

  datatype Reader = Idle | Looking(len: nat, patience: Patience) | Sleeping(len: nat, patience: Patience)

  // Beside the buffer and its threads: every byte rb_write was called with, those it stored, and
  // those rb_read returned; whether a write has failed, and whether a read has, short of an abort.
  datatype State = State(f: R.Fifo, writer: Writer, reader: Reader,
                         offered: Bytes, accepted: Bytes, taken: Bytes, failed: bool, ended: bool)

  function Start(cap: nat): State {
    State(R.Fifo([], cap, false, false), Resting, Idle, [], [], [], false, false)
  }

  datatype Action =
    | CallWrite(src: Bytes)
    | WritePass
    | CallRead(len: nat, patience: Patience)
    | ReadPass
    | WakeWriter                // a spurious wake-up
    | WakeReader
    | Expire(early: bool)       // pthread_cond_timedwait ran out, perhaps before its time
    | CallClose
    | CallAbort

  // pthread_cond_broadcast
  function Woken(s: State): State {
    s.(writer := if s.writer.Asleep? then Awake(s.writer.rest) else s.writer,
       reader := if s.reader.Sleeping? then Looking(s.reader.len, s.reader.patience) else s.reader)
  }

  // rb_write until it returns or waits: a chunk that leaves a remainder has filled the buffer.
  function WriteNext(s: State): Option<State> {
    if !s.writer.Awake? || |s.f.contents| > s.f.cap then None
    else if s.writer.rest == [] then Some(s.(writer := Resting))
    else
      var (r, f) := R.Store(s.f, s.writer.rest);
      match r
      case WriteFails => Some(s.(writer := Resting, failed := true))
      case WriteBlocks => Some(s.(writer := Asleep(s.writer.rest)))
      case Stored(n) =>
        var rest := s.writer.rest[n..];
        Some(Woken(s.(f := f, accepted := s.accepted + s.writer.rest[..n])).(
               writer := if rest == [] then Resting else Asleep(rest)))
  }

  // rb_read until it returns or waits.
  function ReadNext(s: State): Option<State> {
    if !s.reader.Looking? then None
    else
      var (r, f) := R.Take(s.f, s.reader.len);
      match r
      case ReadEnds => Some(s.(reader := Idle, ended := s.ended || !s.f.aborted))
      case ReadBlocks =>
        Some(s.(reader := if s.reader.patience.NoWait? then Idle else Sleeping(s.reader.len, s.reader.patience)))
      case Taken(bytes) =>
        var s' := s.(f := f, taken := s.taken + bytes, reader := Idle);
        Some(if bytes == [] then s' else Woken(s'))
  }

  function ExpireNext(s: State, early: bool): Option<State> {
    if !s.reader.Sleeping? || !s.reader.patience.Timed? then None
    else if s.f.aborted || (s.f.contents == [] && s.f.closed) then
      Some(s.(reader := Idle, ended := s.ended || !s.f.aborted))
    else if s.f.contents != [] then Some(s.(reader := Looking(s.reader.len, s.reader.patience)))
    else if early then Some(s)
    else Some(s.(reader := Idle))
  }

  function Step(s: State, a: Action): Option<State> {
    match a
    case CallWrite(src) =>
      if s.writer.Resting? then Some(s.(writer := Awake(src), offered := s.offered + src)) else None
    case WritePass => WriteNext(s)
    case CallRead(len, patience) => if s.reader.Idle? then Some(s.(reader := Looking(len, patience))) else None
    case ReadPass => ReadNext(s)
    case WakeWriter => if s.writer.Asleep? then Some(s.(writer := Awake(s.writer.rest))) else None
    case WakeReader =>
      if s.reader.Sleeping? then Some(s.(reader := Looking(s.reader.len, s.reader.patience))) else None
    case Expire(early) => ExpireNext(s, early)
    case CallClose => Some(Woken(s.(f := s.f.(closed := true))))
    case CallAbort => Some(Woken(s.(f := s.f.(aborted := true))))
  }

  function Run(s: State, acts: seq<Action>): Option<State>
    decreases |acts|
  {
    if acts == [] then Some(s)
    else
      match Step(s, acts[0])
      case None => None
      case Some(s') => Run(s', acts[1..])
  }

  // ---- the invariant ------------------------------------------------------------------------------

  function Rest(w: Writer): Bytes {
    if w.Resting? then [] else w.rest
  }

  predicate Inv(s: State) {
    && 0 < s.f.cap && |s.f.contents| <= s.f.cap
    && s.accepted == s.taken + s.f.contents
    && s.accepted <= s.offered
    && (if s.failed then s.f.closed || s.f.aborted else s.offered == s.accepted + Rest(s.writer))
    && (s.writer.Asleep? ==>
          s.writer.rest != [] && |s.f.contents| == s.f.cap && !s.f.closed && !s.f.aborted)
    && (s.reader.Sleeping? ==> s.f.contents == [] && !s.f.closed && !s.f.aborted && !s.reader.patience.NoWait?)
    && (s.ended ==> s.f.closed && s.f.contents == [])
  }

  // Bytes move from what is left to write to what is stored.
  lemma BytesMove(offered: Bytes, accepted: Bytes, taken: Bytes, contents: Bytes, rest: Bytes, n: nat)
    requires accepted == taken + contents && offered == accepted + rest && n <= |rest|
    ensures accepted + rest[..n] == taken + (contents + rest[..n])
    ensures offered == accepted + rest[..n] + rest[n..] && accepted + rest[..n] <= offered
  {
    assert rest[..n] + rest[n..] == rest;
  }

  lemma WriteKeepsInv(s: State, s': State)
    requires Inv(s) && WriteNext(s) == Some(s')
    ensures Inv(s')
  {
    var (r, f) := R.Store(s.f, s.writer.rest);
    if r.Stored? { BytesMove(s.offered, s.accepted, s.taken, s.f.contents, s.writer.rest, r.n); }
  }

  lemma ReadKeepsInv(s: State, s': State)
    requires Inv(s) && ReadNext(s) == Some(s')
    ensures Inv(s')
  {}

  lemma StepKeepsInv(s: State, a: Action, s': State)
    requires Inv(s) && Step(s, a) == Some(s')
    ensures Inv(s')
  {
    match a
    case WritePass => WriteKeepsInv(s, s');
    case ReadPass => ReadKeepsInv(s, s');
    case _ =>
  }

  lemma {:induction false} RunKeepsInv(s: State, acts: seq<Action>, s': State)
    requires Inv(s) && Run(s, acts) == Some(s')
    ensures Inv(s')
    decreases |acts|
  {
    hide Step, Inv;
    if acts != [] {
      var next := Step(s, acts[0]).value;
      StepKeepsInv(s, acts[0], next);
      RunKeepsInv(next, acts[1..], s');
    }
  }

  // ---- what holds in every run ------------------------------------------------------------------------

  /** What has been read is a prefix of what was accepted, the buffer holding the difference; and that
      is a prefix of all that was ever written - the whole of it if every write so far returned 0. */
  lemma ReadsInOrder(cap: nat, acts: seq<Action>, s: State)
    requires cap > 0 && Run(Start(cap), acts) == Some(s)
    ensures s.taken <= s.accepted <= s.offered
    ensures s.accepted == s.taken + s.f.contents && |s.f.contents| <= s.f.cap
    ensures s.writer.Resting? && !s.failed ==> s.accepted == s.offered
  {
    RunKeepsInv(Start(cap), acts, s);
  }

  /** No wake-up is lost: a thread sleeps only while the buffer really is full, or really is empty, and
      neither closed nor aborted. So the two never sleep at once. */
  lemma NoLostWakeup(cap: nat, acts: seq<Action>, s: State)
    requires cap > 0 && Run(Start(cap), acts) == Some(s)
    ensures s.writer.Asleep? ==> |s.f.contents| == s.f.cap && !s.f.closed && !s.f.aborted
    ensures s.reader.Sleeping? ==> s.f.contents == [] && !s.f.closed && !s.f.aborted
    ensures !(s.writer.Asleep? && s.reader.Sleeping?)
  {
    RunKeepsInv(Start(cap), acts, s);
  }

  /** A read that fails without an abort has returned everything ever accepted - everything written,
      if no write failed - and nothing is accepted afterwards. */
  lemma EndMeansDrained(cap: nat, acts: seq<Action>, s: State, more: seq<Action>, t: State)
    requires cap > 0 && Run(Start(cap), acts) == Some(s) && s.ended
    requires Run(s, more) == Some(t)
    ensures s.taken == s.accepted == t.accepted == t.taken
    ensures s.writer.Resting? && !s.failed ==> s.taken == s.offered
  {
    RunKeepsInv(Start(cap), acts, s);
    ClosedAcceptsNothing(s, more, t);
    RunKeepsInv(s, more, t);
  }

  lemma ClosedStep(s: State, a: Action, s': State)
    requires Inv(s) && s.f.closed && Step(s, a) == Some(s')
    ensures s'.accepted == s.accepted && s'.f.closed && (s.ended ==> s'.ended)
  {}

  lemma {:induction false} ClosedAcceptsNothing(s: State, acts: seq<Action>, s': State)
    requires Inv(s) && s.f.closed && Run(s, acts) == Some(s')
    ensures s'.accepted == s.accepted && s'.f.closed && (s.ended ==> s'.ended)
    decreases |acts|
  {
    hide Inv, Step;
    if acts != [] {
      var next := Step(s, acts[0]).value;
      StepKeepsInv(s, acts[0], next);
      ClosedStep(s, acts[0], next);
      ClosedAcceptsNothing(next, acts[1..], s');
    }
  }

  /** A reader that looks at a closed buffer never waits: it gets bytes as long as there are any, and
      -1 only then. */
  lemma ClosedReadReturns(s: State)
    requires Inv(s) && s.f.closed && !s.f.aborted && s.reader.Looking? && s.reader.len > 0
    ensures ReadNext(s).Some? && ReadNext(s).value.reader.Idle?
    ensures ReadNext(s).value.taken ==
      s.taken + s.f.contents[..R.Min(s.reader.len, |s.f.contents|)]
    ensures s.f.contents != [] ==> |ReadNext(s).value.f.contents| < |s.f.contents| && ReadNext(s).value.ended == s.ended
    ensures s.f.contents == [] ==> ReadNext(s).value.ended
  {
    if s.f.contents == [] {
      assert s.taken + [] == s.taken;
    }
  }

  /** A read that is not to wait never sleeps: it returns from its first look, empty-handed if the buffer is
      empty and open. A timed read that sleeps returns when its time is up, with nothing lost. */
  lemma ReadsReturnInTime(cap: nat, acts: seq<Action>, s: State)
    requires cap > 0 && Run(Start(cap), acts) == Some(s)
    ensures s.reader.Sleeping? ==> !s.reader.patience.NoWait?
    ensures s.reader.Looking? && s.reader.patience.NoWait? ==> ReadNext(s).Some? && ReadNext(s).value.reader.Idle?
    ensures s.reader.Looking? && s.reader.patience.NoWait? && s.f.contents == [] && !s.f.closed && !s.f.aborted ==>
      Step(s, ReadPass) == Some(s.(reader := Idle))
    ensures s.reader.Sleeping? && s.reader.patience.Timed? ==> Step(s, Expire(false)) == Some(s.(reader := Idle))
  {
    RunKeepsInv(Start(cap), acts, s);
    assert s.taken + [] == s.taken;
  }

  /** One read with room wakes a sleeping writer, which then gets at least a byte in. */
  lemma ReadLetsWriterOn(s: State)
    requires Inv(s) && s.writer.Asleep? && s.reader.Looking? && s.reader.len > 0
    ensures ReadNext(s).Some? && ReadNext(s).value.writer == Awake(s.writer.rest)
    ensures WriteNext(ReadNext(s).value).Some?
    ensures |WriteNext(ReadNext(s).value).value.accepted| > |s.accepted|
  {}
}
